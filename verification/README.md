# Foundry-zksync: verified models

Dafny models of the parts of Foundry-zksync that keep state across calls or promise a round trip, with
proofs over all runs or all inputs. Each part has value functions that say what one step does, classes or
methods that follow the Rust code and are proved against those functions, and lemmas about whole runs.

- **State-diff recorder** (`Recorder`, `RecorderRuns`, `RecorderLayout`, `RecorderTheorems`, `NetDiff`, `Filing`, `Resumes`;
  `Layers` holds the sequence lemmas). The inspector keeps a stack of vectors of account accesses while call, create and opcode
  hooks fire. A run is any sequence of events of a small EVM with journaled storage: frames are entered and
  end by return or revert, including frames older than the recording. The reference is the *chronicle*: one
  entry per event, with a flag read off the events alone. `RecordsTheChronicle` equates the two;
  `SlotDiffIsRight` and `RecorderAgreesWithEvm` compare the report of `getStateDiff` with the storage itself.
- **RLP** (`Rlp`, `RlpText`). The codec of the Yellow Paper, Appendix B, and the text form that `cast from-rlp`
  prints and `cast to-rlp` reads.
- **Broadcasting** (`Broadcast.dfy`). `tx.origin` switching, queued transactions and nonces over a call tree in which
  reverts undo the nonce increments of creates.
- **Gas metering** (`GasMetering`). Paused gas across nested frames, and gas snapshots.
- **Arbitrary storage** (`ArbitraryStorage`). Random slot values shared between a source and its copies.
- **Node service** (`NodeService`). The one-at-a-time block producer and the poll that drives it. Futures are ready or
  pending answers given from outside.
- **Logs** (`Logs`). The polling filter and the push subscription over the same block notifications.
- **Numbers** (`Numbers`). Detection, parsing and printing of 256-bit numbers in four bases.
- **Gas search** (`GasSearch`). The bisection by which chisel estimates gas.

## Where the code does not do what one would expect

Each of these has a lemma with the exact condition and one with inputs that fail it; the model follows the code.

- A storage access can be filed under a record of another frame (`FiledUnderOwnFrame`,
  `MisfiledAfterInnerFrame`). The net diff is unaffected because it goes by the access, not the record.
- When a frame older than the recording is rolled back, the report no longer starts from the value at the start
  of recording (`SlotDiffIsRight`, `OlderRevertMissed`).
- Stopping a broadcast inside a call it applies to leaves `tx.origin` switched (`OriginRestored`, `OriginStuck`).
- A revert that undoes a broadcast create lets the next transaction repeat its nonce, and a create that is not
  queued lets it skip one (`NoncesConsecutive`, `RepeatedNonce`, `SkippedNonce`).
- A gas snapshot also charges the gas since an earlier snapshot stopped, because the last reading is not
  cleared, and charges nothing up to the first positive reading (`SnapshotMeasures`, `StaleReadingCharged`,
  `ZeroStartUncharged`).
- A load through a storage copy can overwrite a value its source wrote (`CopyLoadOverwritesSource`,
  `SourceWriteLost`), and cooling the source makes it draw a new value, which later readers are served
  (`ReadersAgree`, `CoolingUnsettles`, `CoolingSplitsReaders`).
- A subscription that meets a block missing from storage is pending with notifications unread (`PendingExactly`,
  `MissingBlockStalls`).
- The comment on chisel's `call` says its result can be used as `gas_limit`; the result can be too small
  (`EstimateSuffices`, `BlindFractions`, `TwiceIsBlind`).
- `to-rlp` rejects what `from-rlp` prints once lists nest 128 deep, and drops trailing bytes (`CommandsInverse`,
  `DeepListRefused`, `TrailingBytesDropped`).
- `to-rlp` takes hex digits without prefix as a decimal number where they make one, and refuses them where they make
  one with an exponent (`UnprefixedText`).
- No negative decimal survives conversion to another base and back (`ThereAndBack`, for every such value).

## Model

| member | source | states |
|---|---|---|
| Recorder.Inspector.StartStateDiffRecording | foundry-fundamentals/foundry-zksync/crates/cheatcodes/src/evm.rs:737-743 | starts an empty recording, dropping any earlier one |
| Recorder.Inspector.StopAndReturnStateDiff | foundry-fundamentals/foundry-zksync/crates/cheatcodes/src/evm.rs:1101-1110 | returns all recorded accesses flattened in order and leaves an empty recording, not a stopped one |
| Recorder.Inspector.Call | foundry-fundamentals/foundry-zksync/crates/cheatcodes/src/inspector.rs:1217-1260 | pushes one vector holding the call's own record, for contracts only |
| Recorder.Inspector.Create | foundry-fundamentals/foundry-zksync/crates/cheatcodes/src/inspector.rs:793-812 | pushes one vector holding the create's own record |
| Recorder.Inspector.CallEnd | foundry-fundamentals/foundry-zksync/crates/cheatcodes/src/inspector.rs:1576-1615 | pops, marks and merges for contracts, does nothing for cheatcode and console calls |
| Recorder.Inspector.EndRecordedFrame | foundry-fundamentals/foundry-zksync/crates/cheatcodes/src/inspector.rs:894-945 | the top vector is popped, marked if the frame reverted, and appended to the vector below or kept as the base; the root frame is left alone |
| Recorder.Inspector.MarkAllReverted | foundry-fundamentals/foundry-zksync/crates/cheatcodes/src/inspector.rs:1582-1590 | every record and every storage access of the vector is flagged, spelled out field by field; nothing else changes |
| Recorder.Inspector.StepStorage | foundry-fundamentals/foundry-zksync/crates/cheatcodes/src/inspector.rs:2355-2398 | a storage access goes to the only record, to a trailing Resume record, or to a new Resume record, and nowhere when the frame is not recorded |
| Recorder.Inspector.StepLoad | foundry-fundamentals/foundry-zksync/crates/cheatcodes/src/inspector.rs:2026-2050 | a load is recorded with the value found as both the previous and the new one |
| Recorder.Inspector.StepStore | foundry-fundamentals/foundry-zksync/crates/cheatcodes/src/inspector.rs:2051-2075 | a store is recorded with the value found and the value stored |
| Recorder.Inspector.StepSelfDestruct | foundry-fundamentals/foundry-zksync/crates/cheatcodes/src/inspector.rs:1987-2024 | appends a record only when some vector is open |
| Recorder.Inspector.StepExt | foundry-fundamentals/foundry-zksync/crates/cheatcodes/src/inspector.rs:2077-2122 | appends a record, opening a base vector when there is none |
| Recorder.Inspector.GetRecordedStateDiffs | foundry-fundamentals/foundry-zksync/crates/cheatcodes/src/evm.rs:1130-1187 | the reported diffs are net: a slot is listed exactly when a write survives, from the first surviving write's previous value to the last one's new value |
| Recorder.Inspector.AddRecordDiffs | foundry-fundamentals/foundry-zksync/crates/cheatcodes/src/evm.rs:1161-1183 | the entry-by-entry update of one record agrees with the fold over its accesses |
| Recorder.Inspector.FlattenRecords | foundry-fundamentals/foundry-zksync/crates/cheatcodes/src/evm.rs:1101-1108 | vectors are concatenated in stack order |
| Recorder.NetDiffsAreNet | foundry-fundamentals/foundry-zksync/crates/cheatcodes/src/evm.rs:1161-1183 | first previous value and last new value of the surviving writes, slot by slot, for every access list |
| Recorder.SurvivingWritesSound | foundry-fundamentals/foundry-zksync/crates/cheatcodes/src/evm.rs:1162-1163 | a slot has surviving writes exactly when some recorded access is an unreverted write to it |
| RecorderTheorems.RecordsTheChronicle | foundry-fundamentals/foundry-zksync/crates/cheatcodes/src/inspector.rs:1576-1615 | on every run the recorded accesses, read in order across all vectors and Resume records, are the chronological list of events, each flagged exactly when a frame around it other than the root, recorded or older, was rolled back |
| RecorderTheorems.StackDiscipline | foundry-fundamentals/foundry-zksync/crates/cheatcodes/src/inspector.rs:1602-1612 | on every run no vector is empty and there is one vector per frame opened since recording began and still open, over at most one base vector |
| NetDiff.CompletedFrame | foundry-fundamentals/foundry-zksync/crates/cheatcodes/src/inspector.rs:1579-1612 | a completed frame leaves the stack as it found it except that its accesses, the chronicle since its opening with the flags its end gives them, are appended to the vector below or become the base vector |
| NetDiff.RevertMarking | foundry-fundamentals/foundry-zksync/crates/cheatcodes/src/inspector.rs:1582-1590 | an access is recorded exactly when an event in a recorded frame made it, with the values of that moment, and flagged exactly when some enclosing frame ended by revert |
| NetDiff.RecordedTruth | foundry-fundamentals/foundry-zksync/crates/cheatcodes/src/inspector.rs:2026-2075 | a recorded access names the account and slot touched, and the values of that slot before and after its event |
| Resumes.ResumeFlag | foundry-fundamentals/foundry-zksync/crates/cheatcodes/src/inspector.rs:2373-2395 | on every run a Resume record has an access, and its own reverted flag is set exactly when the event of its first access was rolled back |
| Filing.FiledUnderOwnFrame | foundry-fundamentals/foundry-zksync/crates/cheatcodes/src/inspector.rs:2361-2396 | on every run a storage access lands last in a record of its own frame, or else of a deeper one; the latter exactly when a deeper frame that had added a record besides its own made an access and no record was added since |
| Filing.MisfiledAfterInnerFrame | foundry-fundamentals/foundry-zksync/crates/cheatcodes/src/inspector.rs:2370-2373 | a run that does so: after an inner frame that inspected an account and loaded a slot, the outer frame's load is filed under the inner frame's account |
| NetDiff.SurvivorsAreEvents | foundry-fundamentals/foundry-zksync/crates/cheatcodes/src/evm.rs:1161-1163 | the surviving recorded writes to a slot are, in order, the writes of the events in recorded frames that were not rolled back |
| NetDiff.SlotDiffIsRight | foundry-fundamentals/foundry-zksync/crates/cheatcodes/src/evm.rs:1130-1187 | for every run whose writes to the slot come from recorded frames: listed exactly when a write survives, new value is the present one, and the whole report is right if and only if the last older frame rolled back, if any, was rolled back to the value the slot had when recording began |
| NetDiff.OlderRevertMissed | foundry-fundamentals/foundry-zksync/crates/cheatcodes/src/evm.rs:1130-1187 | the other case is reached: the frame that started recording reverts, the slot changes back, and nothing is listed |
| NetDiff.RecorderAgreesWithEvm | foundry-fundamentals/foundry-zksync/crates/cheatcodes/src/evm.rs:1130-1187 | while no frame older than the recording has reverted, the report for such a slot is exactly its value when recording began and its value now, and unlisted slots are unchanged |
| NetDiff.OwnWritesAreMissed | foundry-fundamentals/foundry-zksync/crates/cheatcodes/src/inspector.rs:2361 | the frame that starts recording is not recorded: a write it makes itself leaves no trace in the report |
| Rlp.HeaderRoundTrip | foundry-fundamentals/foundry-zksync/crates/cast/src/rlp_converter.rs:28-32 | a header written before any payload and trailer is read back with its exact size (Yellow Paper, Appendix B) |
| Rlp.RoundTrip | foundry-fundamentals/foundry-zksync/crates/cast/src/rlp_converter.rs:17-46 | decoding an encoded item followed by any bytes gives the item and leaves exactly those bytes |
| Rlp.DecodeItem | foundry-fundamentals/foundry-zksync/crates/cast/src/rlp_converter.rs:27-45 | the buffer-advancing decoder with its list loop computes the decoding function and leaves the unread rest |
| Rlp.Canonical | foundry-fundamentals/foundry-zksync/crates/cast/src/rlp_converter.rs:27-45 | whatever decodes re-encodes to exactly the bytes consumed |
| Rlp.PrefixFree | foundry-fundamentals/foundry-zksync/crates/cast/src/rlp_converter.rs:17-24 | no encoding is a prefix of another and different items encode differently |
| Rlp.DecodesIffEncoded | foundry-fundamentals/foundry-zksync/crates/cast/src/rlp_converter.rs:27-45 | a buffer decodes to an item exactly when it starts with that item's encoding, and to none exactly when it starts with no encoding |
| Rlp.HeaderWritten | foundry-fundamentals/foundry-zksync/crates/cast/src/rlp_converter.rs:17-24 | the prefixes of the Yellow Paper, Appendix B: the length added to 128 or 192 below 56 bytes, otherwise the length of the length added to 183 or 247 and then that length without leading zeros |
| Rlp.YellowPaper | foundry-fundamentals/foundry-zksync/crates/cast/src/rlp_converter.rs:17-24 | a byte below 128 is its own encoding; other data and lists of fewer than 56 bytes follow one byte |
| RlpText.Display | foundry-fundamentals/foundry-zksync/crates/cast/src/rlp_converter.rs:74-93 | the element loop writes the bracketed, comma-separated text of the item |
| RlpText.AsValueInverse | foundry-fundamentals/foundry-zksync/crates/cast/src/rlp_converter.rs:49-64 | reading the JSON value of a printed item gives the item back |
| RlpText.PrintedReadsBack | foundry-fundamentals/foundry-zksync/crates/cast/src/lib.rs:1502-1507 | reading a printed item gives its encoding exactly when lists nest less than 128 deep, an error otherwise |
| RlpText.TextRoundTrip | foundry-fundamentals/foundry-zksync/crates/cast/src/lib.rs:1477-1507 | for every byte string: undecodable input is an error, decodable input prints and reads back to the bytes the decoder consumed |
| RlpText.CommandsInverse | foundry-fundamentals/foundry-zksync/crates/cast/src/lib.rs:1477-1507 | `to-rlp` after `from-rlp` gives the hex string back if and only if it is one complete encoding without trailing bytes whose lists nest less than 128 deep |
| RlpText.DeepListRefused | foundry-fundamentals/foundry-zksync/crates/cast/src/lib.rs:1502-1507 | an encoding that fits and nests 128 deep or more is printed and its text refused |
| RlpText.TrailingBytesDropped | foundry-fundamentals/foundry-zksync/crates/cast/src/lib.rs:1477-1507 | bytes behind a complete encoding do not come back |
| RlpText.FromRlpRefuses | foundry-fundamentals/foundry-zksync/crates/cast/src/lib.rs:1477-1487 | every text after `0x`: refused as hex exactly when of odd length or with a character that is no hex digit, otherwise as RLP exactly when its bytes do not decode, otherwise printed |
| RlpText.BareHexReads | foundry-fundamentals/foundry-zksync/crates/cast/src/lib.rs:1502-1507 | a prefixed hex text outside JSON is taken as data and encoded |
| RlpText.UnprefixedText | foundry-fundamentals/foundry-zksync/crates/cast/src/lib.rs:1502-1507 | hex digits without prefix, in either case: taken as hex if and only if they do not make a JSON number; a number stands for its value, and one with an exponent or above 256 bits is refused |
| RlpText.DecimalReads | foundry-fundamentals/foundry-zksync/crates/cast/src/rlp_converter.rs:55-57 | a decimal number becomes its big-endian bytes up to 256 bits and is refused above |
| RlpText.WordsRead | foundry-fundamentals/foundry-zksync/crates/cast/src/rlp_converter.rs:51-54 | null is empty data, booleans are refused |
| RlpText.PrintedReadsBackSpaced | foundry-fundamentals/foundry-zksync/crates/cast/src/lib.rs:1502-1507 | white space around a printed item changes nothing |
| Broadcasting.Inspector.Start | foundry-fundamentals/foundry-zksync/crates/cheatcodes/src/script.rs:246-279 | refuses under a prank or when a broadcast is active, otherwise saves caller, origin and depth and nothing else; the sender is the one asked for, else the one provided, else the only wallet, else the present origin |
| Broadcasting.Inspector.Stop | foundry-fundamentals/foundry-zksync/crates/cheatcodes/src/script.rs:150-159 | clears the broadcast and nothing else; fails when none is active |
| Broadcasting.Inspector.RecordTransaction | foundry-fundamentals/foundry-zksync/crates/cheatcodes/src/strategy.rs:212-247 | queues one transaction from the new origin with its present nonce |
| Broadcasting.Inspector.Call | foundry-fundamentals/foundry-zksync/crates/cheatcodes/src/inspector.rs:1154-1216 | at the broadcast's depth and caller only: switch origin and sender, queue and bump the nonce, or refuse a static call of a single-call broadcast; what each case does is stated by `CallEffect` |
| Broadcasting.Inspector.Create | foundry-fundamentals/foundry-zksync/crates/cheatcodes/src/inspector.rs:755-788 | switches the origin at or below the depth, queues and changes the sender at the depth itself |
| Broadcasting.Inspector.End | foundry-fundamentals/foundry-zksync/crates/cheatcodes/src/inspector.rs:1438-1448 | back at the broadcast's depth the origin is restored and a single-call broadcast cleared |
| Broadcasting.CallEffect | foundry-fundamentals/foundry-zksync/crates/cheatcodes/src/inspector.rs:1154-1216 | a call that the broadcast applies to proceeds as the new origin, with `tx.origin` and the queued transaction's sender alike; a static one queues nothing and is refused under a single-call broadcast; without isolation the nonce of that account and no other grows by one; any other call proceeds as its own caller and changes nothing |
| Broadcasting.CreateEffect | foundry-fundamentals/foundry-zksync/crates/cheatcodes/src/inspector.rs:755-788 | a create at the broadcast's depth is queued and made as the new origin, a deeper one by the same caller only switches `tx.origin`, any other changes nothing |
| Broadcasting.QueuedAsSender | foundry-fundamentals/foundry-zksync/crates/cheatcodes/src/inspector.rs:1160-1188 | an event queues at most one transaction, and then enters a frame whose sender is that transaction's and the present `tx.origin` |
| Broadcasting.TransactionsFromSenders | foundry-fundamentals/foundry-zksync/crates/cheatcodes/src/inspector.rs:1160-1188 | on every run the queued transactions are, in order, from the senders of the frames entered for them |
| Broadcasting.OneShot | foundry-fundamentals/foundry-zksync/crates/cheatcodes/src/inspector.rs:1438-1448 | over every run that starts no further broadcast, a single-call broadcast queues at most one transaction, from its new origin; it is cleared exactly once the first call or create at its depth has ended or it is stopped; back at its depth the origin is restored if and only if it was not stopped inside the call |
| Broadcasting.OriginRestored | foundry-fundamentals/foundry-zksync/crates/cheatcodes/src/inspector.rs:1438-1448 | for every broadcast, single-call or not, and every run back at its depth: the origin is the saved one if and only if the broadcast was not stopped while the origin was switched |
| Broadcasting.OriginStuck | foundry-fundamentals/foundry-zksync/crates/cheatcodes/src/script.rs:150-159 | a run that stops a broadcast inside the call it applies to and ends with the origin still switched |
| Broadcasting.OriginStuckWithoutBroadcast | foundry-fundamentals/foundry-zksync/crates/cheatcodes/src/script.rs:150-159 | without a broadcast nothing changes the origin or the queue, so a switched origin stays switched |
| Broadcasting.NonceAccount | foundry-fundamentals/foundry-zksync/crates/cheatcodes/src/inspector.rs:1190-1200 | over every run an account's nonce is its first one plus the transactions queued for it and its creates that are not queued, minus the increments undone by reverts |
| Broadcasting.NoncesConsecutive | foundry-fundamentals/foundry-zksync/crates/cheatcodes/src/inspector.rs:1154-1200 | queued transactions of one origin carry consecutive nonces if and only if each is queued when as many of its increments have been undone by reverts as it has made by creates that are not queued |
| Broadcasting.RepeatedNonce | foundry-fundamentals/foundry-zksync/crates/cheatcodes/src/strategy.rs:192-204 | one failing family: a frame broadcasts a create and reverts, and the next broadcast from that origin repeats the nonce |
| Broadcasting.SkippedNonce | foundry-fundamentals/foundry-zksync/crates/cheatcodes/src/inspector.rs:755-788 | the other, without a revert: a create deeper than the broadcast by the account that started it is not queued, and the next transaction skips a nonce |
| GasMetering.Metering.InitializeInterp | foundry-fundamentals/foundry-zksync/crates/cheatcodes/src/inspector.rs:1321-1323 | a new frame's gas is pushed exactly while paused |
| GasMetering.Metering.MeterGas | foundry-fundamentals/foundry-zksync/crates/cheatcodes/src/inspector.rs:1867-1875 | under pause the frame goes on with the top remembered gas or remembers its own |
| GasMetering.Metering.GasStep | foundry-fundamentals/foundry-zksync/crates/cheatcodes/src/inspector.rs:1341-1349 | a step holds the gas while paused and then gives it back in full if a reset is due, once |
| GasMetering.Metering.MeterGasEnd | foundry-fundamentals/foundry-zksync/crates/cheatcodes/src/inspector.rs:1899-1904 | an exiting frame's remembered gas is dropped |
| GasMetering.Metering.GasStepEnd | foundry-fundamentals/foundry-zksync/crates/cheatcodes/src/inspector.rs:1383-1389 | drops the remembered gas of an exiting frame and, once metering was touched, gives back in full gas spent below its refund |
| GasMetering.Metering.ResumeGas | foundry-fundamentals/foundry-zksync/crates/cheatcodes/src/inspector.rs:314-320 | pause flag and remembered gas are cleared, and a real resume marks the meter touched |
| GasMetering.Metering.ResetGas | foundry-fundamentals/foundry-zksync/crates/cheatcodes/src/inspector.rs:323-328 | as resuming, and the next step gets its limit back |
| GasMetering.PausedGasIsPerFrame | foundry-fundamentals/foundry-zksync/crates/cheatcodes/src/inspector.rs:1867-1904 | over every run of nested frames, pauses, resumes and resets, each step under a pause goes on with exactly the gas its own frame had when first observed under it: the one shared stack refines a per-frame ledger |
| GasMetering.Metering.StartSnapshot | foundry-fundamentals/foundry-zksync/crates/cheatcodes/src/evm.rs:951-976 | adds a zero record at the present depth unless a snapshot is active, which changes nothing |
| GasMetering.Metering.StopSnapshot | foundry-fundamentals/foundry-zksync/crates/cheatcodes/src/evm.rs:978-1026 | reports and stores, under the group and name given or those of the active snapshot, the gas of a record of that name less 171 or zero; drops every record sharing group or name, clears an exactly matching active snapshot; nothing is stored on failure |
| GasMetering.Metering.MeterGasRecord | foundry-fundamentals/foundry-zksync/crates/cheatcodes/src/inspector.rs:1878-1896 | while recording, and only for continuing steps, the records and the last reading become those of the charging loop |
| GasMetering.Metering.ChargeRecords | foundry-fundamentals/foundry-zksync/crates/cheatcodes/src/inspector.rs:1880-1894 | each record at the step's depth is charged the saturating difference to the last reading, in order, sharing that reading |
| GasMetering.SnapshotsCoherent | foundry-fundamentals/foundry-zksync/crates/cheatcodes/src/evm.rs:951-1026 | in every reachable state there is an active snapshot exactly while recording, and then its record is the only one |
| GasMetering.StopEndsTheActive | foundry-fundamentals/foundry-zksync/crates/cheatcodes/src/evm.rs:1006-1021 | in every reachable state a stop succeeds if and only if it names the active snapshot or names none while one is active, answers its gas less 171 or zero, and leaves no record behind; which error it is otherwise |
| GasMetering.ChargesGrowth | foundry-fundamentals/foundry-zksync/crates/cheatcodes/src/inspector.rs:1878-1896 | whatever the readings, child calls and halting steps included, the record is charged by how much the readings of its frame grow in all, growth from zero not counting, up to the 64-bit maximum |
| GasMetering.SnapshotMeasures | foundry-fundamentals/foundry-zksync/crates/cheatcodes/src/inspector.rs:1878-1896 | over one frame with readings that never shrink, child calls included, a snapshot measures last minus first reading if and only if the first is positive and no earlier recording had stopped at a smaller positive one, or all are zero |
| GasMetering.SnapshotReports | foundry-fundamentals/foundry-zksync/crates/cheatcodes/src/evm.rs:978-1026 | end to end: after any run with nothing active, starting a snapshot, running opcodes and stopping it, by name or not, answers last minus first reading less 171, or zero, under that condition |
| GasMetering.ZeroStartUncharged | foundry-fundamentals/foundry-zksync/crates/cheatcodes/src/inspector.rs:1882-1888 | a snapshot that reaches the zero case: with readings 0 and y the answer is zero |
| GasMetering.StaleReadingCharged | foundry-fundamentals/foundry-zksync/crates/cheatcodes/src/inspector.rs:1884-1888 | a run of cheatcodes and opcodes that reaches the other case: the second snapshot answers the gas between the two, less 171 |
| ArbitraryStorage.Storage.MarkArbitrary | foundry-fundamentals/foundry-zksync/crates/cheatcodes/src/utils.rs:196-203 | marking empties the cache of the account |
| ArbitraryStorage.Storage.CopyStorage | foundry-fundamentals/foundry-zksync/crates/cheatcodes/src/utils.rs:205-226 | an account with arbitrary storage is refused and nothing changes; otherwise its storage becomes the source's, no other account's changes, and the source is remembered if it is arbitrary |
| ArbitraryStorage.Storage.Save | foundry-fundamentals/foundry-zksync/crates/cheatcodes/src/inspector.rs:358-363 | cache and storage get the value |
| ArbitraryStorage.Storage.Copy | foundry-fundamentals/foundry-zksync/crates/cheatcodes/src/inspector.rs:370-390 | serves the cached value or caches and stores the new one in source and copy; the lookups cannot fail |
| ArbitraryStorage.Storage.Load | foundry-fundamentals/foundry-zksync/crates/cheatcodes/src/evm.rs:159-193 | a touched slot reads what is stored; an untouched zero slot is served an arbitrary value, through the account's own cache or its source's; any other the database's value; what is read is stored from then on |
| ArbitraryStorage.Run | foundry-fundamentals/foundry-zksync/crates/cheatcodes/src/inspector.rs:370-372 | in every reachable state each copy's source has a cache, so the lookups that would panic cannot fail |
| ArbitraryStorage.ReadersAgree | foundry-fundamentals/foundry-zksync/crates/cheatcodes/src/inspector.rs:342-390 | on every run in which the source is not marked again, an untouched reader is served the last value the source drew for the slot since an earlier untouched reader was served, or that reader's value; so the two agree if and only if that draw, if any, repeats it |
| ArbitraryStorage.UncooledReadersAgree | foundry-fundamentals/foundry-zksync/crates/cheatcodes/src/inspector.rs:342-390 | from marking on, as long as the source is neither marked again nor cooled, every untouched reader of a slot, source or copy, is served the same value |
| ArbitraryStorage.SourceAgrees | foundry-fundamentals/foundry-zksync/crates/cheatcodes/src/inspector.rs:374-382 | on every run in which the source is not marked again, it reads a value generated through it or a copy until it writes the slot or loads it anew, and then what it wrote or loaded last |
| ArbitraryStorage.UncooledSourceAgrees | foundry-fundamentals/foundry-zksync/crates/cheatcodes/src/inspector.rs:374-382 | from marking on, as long as the source is neither marked again nor cooled, it reads such a value until it writes the slot |
| ArbitraryStorage.CopiedUntilRewritten | foundry-fundamentals/foundry-zksync/crates/cheatcodes/src/utils.rs:213-222 | on every run a copy reads, for a slot its source had when it was copied, the source's value of that moment, until an event rewrites the copy's slot: a store, a cooling, a copy over it, or a load through a further copy of it that generates the slot |
| ArbitraryStorage.CopiedStorageServed | foundry-fundamentals/foundry-zksync/crates/cheatcodes/src/utils.rs:213-222 | the same with conditions on the events alone, for a copy that is not marked and so cannot be a source |
| ArbitraryStorage.StoredUntilRewritten | foundry-fundamentals/foundry-zksync/crates/cheatcodes/src/inspector.rs:358-363 | a stored value is read back until such an event |
| ArbitraryStorage.FirstReaderDraws | foundry-fundamentals/foundry-zksync/crates/cheatcodes/src/inspector.rs:344-346 | marking forgets: the first untouched reader of a slot after it is served the new random value |
| ArbitraryStorage.CopyLoadOverwritesSource | foundry-fundamentals/foundry-zksync/crates/cheatcodes/src/inspector.rs:374-382 | a load through a copy keeps what the source has stored if and only if the slot is cached or the generator repeats that value |
| ArbitraryStorage.SourceWriteLost | foundry-fundamentals/foundry-zksync/crates/cheatcodes/src/inspector.rs:374-382 | a concrete run in which a value the source wrote is overwritten by a load through its copy |
| ArbitraryStorage.CoolingUnsettles | foundry-fundamentals/foundry-zksync/crates/cheatcodes/src/evm.rs:570-579 | after cooling the source it reads the agreed value again if and only if the generator repeats it |
| ArbitraryStorage.CoolingSplitsReaders | foundry-fundamentals/foundry-zksync/crates/cheatcodes/src/evm.rs:570-579 | a run in which two copies are served different values because the source was cooled and drew anew in between |
| NodeService.BlockProducer.PollNext | foundry-fundamentals/foundry-zksync/crates/anvil/src/service.rs:124-163 | starts the next queued batch if the backend is idle, then polls the mining job and returns its outcome with the backend |
| NodeService.NothingLost | foundry-fundamentals/foundry-zksync/crates/anvil/src/service.rs:121-164 | in every reachable state exactly one of idle backend and mining task is present, and delivered outcomes, batch in flight and backlog are, in order, the batches handed over |
| NodeService.Service.DrainProducer | foundry-fundamentals/foundry-zksync/crates/anvil/src/service.rs:74-78 | polls until pending, the polls getting consecutive answers; the last thing done is a poll, after which the backlog is empty or a task is in flight that this poll found unfinished |
| NodeService.Service.PollService | foundry-fundamentals/foundry-zksync/crates/anvil/src/service.rs:68-101 | one poll takes over all offered batches in order, loses none, and strands no work: the last thing it does is poll the producer, after which the backlog is empty or a task is in flight that this poll found unfinished |
| Logs.FilterLogs | foundry-fundamentals/foundry-zksync/crates/anvil/src/pubsub.rs:138-183 | the nested loops with one running counter return the accepted ones among all logs of the block, numbered through: the raw log at each position of the receipts put end to end, once, in order, exactly when the filter's four conditions hold or there is no filter |
| Logs.IndexIsPosition | foundry-fundamentals/foundry-zksync/crates/anvil/src/pubsub.rs:163-183 | all logs of a block are its receipts put end to end; each carries its position, the block's hash, number and timestamp, and the index and hash of the transaction the position falls in |
| Logs.EachMatchingLogOnce | foundry-fundamentals/foundry-zksync/crates/anvil/src/pubsub.rs:138-183 | the raw log at a position is returned once, in order and with that position, if and only if there is no filter or block range, block hash, address and topics all match |
| Logs.LogsFilter.Poll | foundry-fundamentals/foundry-zksync/crates/anvil/src/filter.rs:165-175 | returns the historic batch once, then the logs of all unread notifications in order |
| Logs.LogsSubscription.Poll | foundry-fundamentals/foundry-zksync/crates/anvil/src/pubsub.rs:28-58 | the poll loop over queue and notifications, including the skipped and the missing block |
| Logs.PollKeepsOwed | foundry-fundamentals/foundry-zksync/crates/anvil/src/pubsub.rs:28-58 | a poll emits the next log owed, if any, and loses none |
| Logs.OwedIsDelivered | foundry-fundamentals/foundry-zksync/crates/anvil/src/filter.rs:165-175 | what notifications stand for is what each known block delivers, one block after the other, and nothing for a missing one |
| Logs.PendingExactly | foundry-fundamentals/foundry-zksync/crates/anvil/src/pubsub.rs:38-57 | a poll is pending if and only if nothing is queued and either all notifications were read in vain on an open stream or the first block not skipped is missing from storage; the blocks behind it then stay unread |
| Logs.MissingBlockStalls | foundry-fundamentals/foundry-zksync/crates/anvil/src/pubsub.rs:40-57 | a missing block in front makes the poll pending with every log of the blocks behind it still owed |
| Logs.PushAndPullAgree | foundry-fundamentals/foundry-zksync/crates/anvil/src/pubsub.rs:28-58 | however notifications and polls interleave, filter and subscription account for the same logs in the same order, and agree once both have read everything |
| Numbers.PrintParses | foundry-fundamentals/foundry-zksync/crates/cast/src/base.rs:373-412 | for every value in [-2^255, 2^256) and every base, printing and parsing with detection gives the same base and pattern, the sign being kept in decimal |
| Numbers.NegativePrintsBack | foundry-fundamentals/foundry-zksync/crates/cast/src/base.rs:377-384 | a negative decimal text prints back as it was if and only if it is at least -2^255 |
| Numbers.Converts | foundry-fundamentals/foundry-zksync/crates/cast/src/lib.rs:1537-1549 | converting a printed value prints its 256-bit pattern in the other base |
| Numbers.ThereAndBack | foundry-fundamentals/foundry-zksync/crates/cast/src/lib.rs:1537-1549 | converting there and back gives the text back if and only if no negative decimal loses its sign |
| Numbers.ParsesDenoted | foundry-fundamentals/foundry-zksync/crates/cast/src/base.rs:406-412 | every text in every base: the parser gives the positional value of its digits, underscores ignored, exactly when all are digits of the base and the value fits 256 bits |
| Numbers.RenderDenotes | foundry-fundamentals/foundry-zksync/crates/cast/src/base.rs:373-391 | what is rendered denotes the number, in lower-case digits without a leading zero |
| Numbers.DigitCases | foundry-fundamentals/foundry-zksync/crates/cast/src/base.rs:406-412 | a digit stands for its value in either case, and no other character does |
| Numbers.PrefixedDigitsParse | foundry-fundamentals/foundry-zksync/crates/cast/src/base.rs:123-143 | digits in either case after a base's prefix are read in that base, or refused above 256 bits |
| Numbers.UnprefixedParses | foundry-fundamentals/foundry-zksync/crates/cast/src/base.rs:144-154 | a text without prefix is read as decimal if it is one, otherwise as hexadecimal, otherwise refused; `0B` is detected as hexadecimal digits and then taken off as a prefix |
| Numbers.GivenBaseParses | foundry-fundamentals/foundry-zksync/crates/cast/src/base.rs:394-412 | with a base given, one sign and one prefix of any base are taken off, and a minus gives the two's complement |
| Numbers.PlusIgnored | foundry-fundamentals/foundry-zksync/crates/cast/src/base.rs:115-116 | a leading plus changes nothing |
| GasSearch.EarlyStopBound | foundry-fundamentals/foundry-zksync/crates/chisel/src/runner.rs:149-175 | an early stop is at a sufficient limit within the range, above the least sufficient one by less than a ninth of itself |
| GasSearch.BlindExactly | foundry-fundamentals/foundry-zksync/crates/chisel/src/runner.rs:149-175 | the search ends without an early stop exactly for the thresholds in a set computed from the range alone |
| GasSearch.EstimateSuffices | foundry-fundamentals/foundry-zksync/crates/chisel/src/runner.rs:115-178 | the reported gas suffices as a limit if and only if the first run's gas does, or the threshold is within three times it and not a blind one |
| GasSearch.BlindFractions | foundry-fundamentals/foundry-zksync/crates/chisel/src/runner.rs:146-150 | for every gas from 28 on the blind thresholds are six fixed fractions of it, and two more exactly where rounding makes their halves of the range count as far apart |
| GasSearch.EstimateSufficesUnlessFraction | foundry-fundamentals/foundry-zksync/crates/chisel/src/runner.rs:115-178 | so the reported gas suffices if and only if the first run's gas does, or the threshold is within three times it and none of those fractions |
| GasSearch.SmallGasDiffers | foundry-fundamentals/foundry-zksync/crates/chisel/src/runner.rs:149-175 | 28 is the least such bound: with 27 gas there is a further blind threshold |
| GasSearch.TwiceIsBlind | foundry-fundamentals/foundry-zksync/crates/chisel/src/runner.rs:149-175 | a call that needs exactly twice the gas it used is always estimated at half of what it needs |
| GasSearch.Executor.Call | foundry-fundamentals/foundry-zksync/crates/chisel/src/runner.rs:136-178 | the loop reports the estimate for every threshold, never underflows or divides by zero, cannot overflow while ten times the first gas fits in 64 bits, and restores the gas limit except when the executor fails or the arithmetic overflows |

## Left out

- Recorder.Inspector.GetRecordedStateDiffs: does not model balance diffs and labels, which the same function also reports, because records carry no balances here.
- Recorder: cheatcodes that write storage, such as `vm.store`; a cheatcode call leaves storage alone in a modelled run.
- Recorder: balances, values, deployed code, initialisation flags, chain information and labels.
- Recorder: mocked calls, `expectRevert` and `assumeNoRevert`, whose hooks do not push and pop in pairs; none is pending in a modelled run.
- Recorder: exceptional halts, whose classification belongs to the EVM library; frames end by return or revert.
- Recorder: accounts that fail to load, and the zkSync strategy hooks, which do nothing in the EVM strategy.
- NetDiff.SlotDiffIsRight: requires that the root frame has not reverted, because its end is not recorded; a run has one root frame.
- Rlp: the header functions are those of Appendix B of the Yellow Paper, since the library that implements them is not part of this model; payload lengths are 64-bit machine words.
- RlpText: JSON escapes and objects, and the `as_int` form of `from-rlp`.
- Broadcasting: how pranks act, delegations, nonce cheatcodes, and failures of the wallet lookup; whether a prank is active and which wallets there are is given, and runs are not isolated.
- Broadcasting.OneShot: covers a run up to the next broadcast that is started, to which it applies anew.
- Broadcasting: creates that fail before incrementing the nonce.
- GasMetering: names of snapshots are given, not derived from the running contract.
- ArbitraryStorage: reverts, which make loaded slots cold again; the random generator is a parameter.
- NodeService: a panicking mining task, fee history, filter eviction and wakers beyond "was polled in this call".
- Logs: the 32-bit wrap of the log counter; header and pending-transaction subscriptions.
- Logs.FilterLogs: requires a transaction for every receipt, because the code would panic on a missing one.
- Numbers: underscores inside prefixed digits are rejected by the probe as in the code, but other Unicode input, `to_fixed_point`, `max_min_int` and padding are not modelled.
- GasSearch.Executor.Call: does not model what happens after an overflow, because it depends on the build: a debug build panics and a release build wraps; committing the call and re-running it with file-system access are not modelled.
- GasSearch.BlindFractions: gas below 28 is left to the definition of the blind thresholds; no transaction costs that little.
- Cryptography, wallets, ABI encoding, JSON and TOML cheatcodes, configuration, command lines, RPC clients and the chisel shell.
