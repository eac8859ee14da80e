# Rauha protocols in Dafny

A model of the protocols inside Rauha whose guarantees hold over whole runs, and proofs of
those guarantees. `dafny verify dfyconfig.toml` checks everything.

| file | models |
|---|---|
| `Common.dfy` | optional values, bytes, 64-bit bounds, decimal numerals |
| `Json.dfy` | JSON values and the depth bound on caller input |
| `JournalFormat.dfy` | journal records, the hash chain, the verification scan, replay |
| `JournalDisk.dfy` | the storage protocol: a disk with a volatile and a durable layer, create, open, append, kill, power loss, failing calls |
| `JournalSafety.dfy` | the refinement proof: every run of the storage protocol is a run of a ledger that loses nothing it acknowledged |
| `JournalTheorems.dfy` | what follows for recovery, durability, staging, poisoned handles and uncommitted tails |
| `JournalHandle.dfy` | `Journal` as an object; its methods are runs of the storage protocol |
| `ExecHandshake.dfy` | shim, intermediate and grandchild over three pipes |
| `Utf8.dfy` | well-formed UTF-8 (section 4 of RFC 3629), lossy decoding, truncation at a character boundary |
| `OutputCapture.dfy` | the bounded log and its `.incomplete` marker, the drain thread, the capped reader |
| `Dsse.dfy` | the DSSE pre-authentication encoding |
| `Receipts.dfy` | signing and verifying receipts in both forms, and the client's check |
| `SortedText.dfy` | sorting and deduplicating the issue list |
| `SealedResult.dfy` | the sign-measure-cut loop, the metadata budget, and delivery end to end |
| `TaskOwnership.dfy` | ownership of task identifiers across requests, deletes, failing transactions and crashes |
| `BrokerLog.dfy` | the decision-log tailer and the one-shot reader |
| `RunLifecycle.dfy` | the Run event reducer folded over traces |
| `OpenClassifier.dfy` | the broker's classification of openat and openat2 |
| `ImageReference.dfy` | parsing and printing of image references |

## How to read it

Concurrency, crashes and failing calls are transition systems: a state, a deterministic
`Next(state, action)` whose action carries every outcome the environment chooses, and runs
as sequences of actions. Where the code updates an object or loops, the model is a class or
a method with loop invariants, tied by its `ensures` to a specification function or predicate.

What is not Rauha's own code is a parameter. serde_json, SHA-256, Ed25519, hex and base64
are records of functions (`JournalFormat.Serde`, `Receipts.Crypto`). What is assumed of them
is written out in the predicates `Lawful`: encodings contain no raw newline, whatever parses
at all parses back to the value that was encoded (the journal's crate turns on serde_json's
`float_roundtrip` feature for this), a signature verifies under its own key. One theorem,
`ReceiptCoversResult`, also assumes `Receipts.OutputsDistinct`: different outputs have different
JSON. `AcceptedWasIssued` and `VerifiedEnvelopeWasIssued` assume `PayloadsDistinct` (different
payloads have different JSON objects) and say which messages the key verifies (`OnlyIssued`). Collision
freedom of the hash is never assumed: a theorem that would need it concludes "or here is a
collision". A journal timestamp is an opaque text.

The journal's main theorem is `JournalRefinesLedger`. The ledger has a history and at most one
append in doubt. `Acked(e)` is allowed only for the append in doubt and extends the history by
it. `Exposed(es)`, which is what `create` and `open` return, is allowed only if `es` is the
history, or the history plus the append in doubt, and it settles the doubt. So in every run,
with kills, power losses and half-done calls anywhere, no acknowledged entry is ever lost,
reordered or altered, and at most the one unacknowledged entry is added.

Three properties that one might expect are false of the code, and the exact condition is proved:

- The printed form of an image reference with a digest is not always a fixed point of parsing
  and printing. It is one exactly when the repository's last segment has no colon
  (`DigestFixedPointIff`, with `a:b:c@sha256:0` in `DigestCounterexample`).
- Dropping unknown events from a Run trace can make a refused trace acceptable. The trace with
  them is accepted exactly when the trace without them is and none of them comes after the Run
  has ended (`UnknownEventsAreTransparent`, with `run.created`, `run.discarded`, `run.x` in
  `LateUnknownIsRefused`).
- The tailer does not always catch up with a finished log. It does exactly when it never stops
  before a 1 MiB window that is not UTF-8 or has no newline (`CatchesUpIff`), which in terms of
  the file is: it is UTF-8, every line is complete within a window, and no window the tailer
  stops before is cut inside a character (`CatchesUpIffTame`). On a growing file it stays where
  it is for good exactly when the bytes before it can no longer become text with a complete
  line inside the window (`StalledForGood`). `TornCharacterStalls` is a log a failing write can
  leave: the tailer never sends its whole line, and the one-shot reader returns it.

## Model

| member | source | states |
|---|---|---|
| `Json.FitsIffShallow` | rauha-evidence/src/journal.rs:282-290 | the recursive check passes if and only if no array or object lies as deep as the bound along any path |
| `Json.BoundedInput` | rauha-evidence/src/journal.rs:280-304 | input is accepted if and only if it nests at most 120 deep, and the iterative disposal of refused input ends |
| `JournalFormat.RecordRoundTrip` | rauha-evidence/src/journal.rs:316-335 | the bytes the writer emits for a value are exactly the bytes the reader accepts as that value |
| `JournalFormat.ValidKindIff` | rauha-evidence/src/journal.rs:270-278 | a kind is valid if and only if it has a dot and dots stand only between lower-case letters, digits and underscores |
| `JournalFormat.ScanDecidesChain` | rauha-evidence/src/journal.rs:235-261 | the scan of any bytes from any point of the chain yields entries `es` if and only if `es` continue the chain and the bytes are their records |
| `JournalFormat.VerifyIffCommitted` | rauha-evidence/src/journal.rs:235-267 | verification against a head succeeds with `es` if and only if the committed prefix is the records of the valid chain `es` that the head names |
| `JournalFormat.HeadPinsHistory` | rauha-evidence/src/journal.rs:235-267 | two logs accepted against one head have the same entries and byte-identical committed prefixes, or two of their entries collide under the hash |
| `JournalFormat.SameRootSameBytes` | rauha-evidence/src/journal.rs:246-256 | two chains of equal length with one root are equal, or a hash collision is exhibited at some position |
| `JournalFormat.Scan` | rauha-evidence/src/journal.rs:235-267 | the loop accepts exactly when verification does, and then visits exactly the verified entries in order |
| `JournalFormat.Replay` | rauha-evidence/src/journal.rs:174-179 | the visitor sees nothing before a whole verification pass has succeeded, and a successful replay visits exactly the verified entries |
| `JournalSafety.StepRefines` | rauha-evidence/src/journal.rs:85-162 | every step (system call, failing call, kill, power loss, open, append, close) keeps the refinement relation and is allowed by the ledger |
| `JournalSafety.RunRefines` | rauha-evidence/src/journal.rs:85-233 | the refinement holds along every run from related states |
| `JournalSafety.JournalRefinesLedger` | rauha-evidence/src/journal.rs:85-233 | every run from the creation of the directory is a run of the ledger: nothing acknowledged is lost, and open exposes the history or the history plus the one append in doubt |
| `JournalSafety.OpenFindsTheLedger` | rauha-evidence/src/journal.rs:130-154 | whatever open verifies is the ledger's history, or that plus the append in doubt |
| `JournalSafety.PowerLossPreserves` | rauha-evidence/src/journal.rs:156-161 | whichever unsynced contents and renames vanish, the disk still holds what the ledger says |
| `JournalSafety.RenamePreserves` | rauha-evidence/src/journal.rs:416-439 | renaming the staged head keeps every version of the directory that power loss may bring back safe to open |
| `JournalSafety.FaultPreserves` | rauha-evidence/src/journal.rs:181-233 | a call that fails part way, or takes effect and then fails, keeps the relation and poisons the handle |
| `JournalTheorems.RecoverySucceeds` | rauha-evidence/src/journal.rs:130-162 | once a handle has been returned, open succeeds after any run and any power loss, exposes the history or that plus the append in doubt, and counts the tail exactly |
| `JournalTheorems.OpenAcceptsIff` | rauha-evidence/src/journal.rs:130-154 | on any disk, open succeeds with a handle and entries if and only if manifest and head are canonical records that belong together, the log is long enough, and its committed prefix is the chain of those entries |
| `JournalTheorems.DurableHeadsMatchDurableLog` | rauha-evidence/src/journal.rs:219-232 | every head that power loss may leave is durable, names no more bytes than the durable log holds, and verifies against them |
| `JournalTheorems.HealthyHandleReplaysHistory` | rauha-evidence/src/journal.rs:174-179 | an unpoisoned handle's head verifies against the log with exactly the acknowledged history |
| `JournalTheorems.StagingNeverBlocks` | rauha-evidence/src/journal.rs:416-417 | a journal that opens without a tail has no leftover `head.next`, and no publication ever finds one in its way |
| `JournalTheorems.PoisonedWritesNothing` | rauha-evidence/src/journal.rs:181-187 | whatever is attempted through a poisoned handle changes neither disk nor handle |
| `JournalTheorems.TailIsNeverTouched` | rauha-evidence/src/journal.rs:128-162 | through any run without power loss, an uncommitted tail is never changed or promoted and every append is refused |
| `JournalTheorems.DurableTailSurvives` | rauha-evidence/src/journal.rs:128-162 | through any run with any power losses, a tail that is durable past every head the directory may come back with keeps its durable bytes, is never promoted, and refuses every append |
| `JournalTheorems.PowerLossLodgesTails` | rauha-evidence/src/journal.rs:142-146 | after one power loss a journal is blocked if and only if its tail is durable in that sense |
| `JournalTheorems.BlockedIffTail` | rauha-evidence/src/journal.rs:142-146 | at rest, a journal is blocked if and only if reopening it would report uncommitted bytes |
| `JournalHandle.Journal.WriteAndPublish` | rauha-evidence/src/journal.rs:210-229 | the eight calls of an append are a run of the protocol; success acknowledges the entry at the last call and only there |
| `JournalHandle.PreparedUnlessRefused` | rauha-evidence/src/journal.rs:183-218 | an append is refused before writing if and only if nesting, poisoned handle, tail, kind, body, an overflow, or the record forbid it; otherwise the entry holds exactly what the caller passed |
| `JournalHandle.Journal.Append` | rauha-evidence/src/journal.rs:183-233 | a refusal changes nothing; success acknowledges the entry with the caller's kind, epoch and body, its record ends the log, and the head names it; failure leaves the handle poisoned with its old head, and happens only by a failing call, stale staging or an unwritable head |
| `JournalHandle.CreateRun` | rauha-evidence/src/journal.rs:85-126 | a manifest is refused exactly for depth, not being an object, or its record; otherwise the eleven calls are a run of the protocol, and a handle onto an empty history is returned if and only if all succeed, with manifest, log and first head on disk |
| `JournalHandle.OpenRun` | rauha-evidence/src/journal.rs:130-162 | a handle is returned if and only if every check passes and the directory sync succeeds, and it is the handle those checks describe |
| `ExecHandshake.StepAdvances` | rauha-shim/src/attach.rs:384-508 | every step of any process, failing or not, and every death keeps the invariant and decreases the rank |
| `ExecHandshake.ExecOnlyWhenContained` | rauha-shim/src/attach.rs:247-323 | in every reachable state the workload is executed only with its pid enrolled in the cgroup, inside the root and without privileges |
| `ExecHandshake.ErrorMeansNeverExecuted` | rauha-shim/src/attach.rs:430-508 | if the shim returned an error, the workload was not executed and never will be |
| `ExecHandshake.SomebodyMoves` | rauha-shim/src/attach.rs:384-508 | no deadlock: until the shim has returned, some process can move |
| `ExecHandshake.HandshakeTerminates` | rauha-shim/src/attach.rs:384-508 | every run has at most 33 steps, and one that cannot be continued has the shim returned |
| `ExecHandshake.FaultlessRunSucceeds` | rauha-shim/src/attach.rs:384-508 | without faults and deaths, every maximal interleaving ends with the shim returning success and the workload executing |
| `ExecHandshake.SuccessMeansEnrolled` | rauha-shim/src/attach.rs:455-508 | with success the caller holds the workload's own pid, which is enrolled, and its trusted setup was done |
| `Utf8.LossyRepairs` | rauhad/src/logs.rs:195-198 | lossy decoding yields text, and changes the bytes if and only if they were not text |
| `Utf8.BoundaryIffPrefixValid` | rauhad/src/logs.rs:214-220 | in text, the one-byte boundary test holds at exactly the positions where the prefix is text |
| `Utf8.TruncateUtf8` | rauhad/src/logs.rs:214-220 | the result is the longest prefix within the limit that is still text |
| `Utf8.LongestTextUnique` | rauhad/src/logs.rs:214-220 | there is only one longest text prefix, so truncation is determined |
| `Utf8.LossyAfterText` | rauhad/src/logs.rs:195-198 | decoding text followed by anything repairs only what follows |
| `Utf8.LossyBeforeText` | rauhad/src/logs.rs:195-198 | text after anything is kept, whatever malformed bytes come before |
| `Utf8.ReplacedPieceIsMaximal` | rauhad/src/logs.rs:195-198 | one replacement character stands for the longest piece that begins a character, or for one byte |
| `Utf8.EncodedIsCharacter` | rauhad/src/logs.rs:195-198 | the encoding of every Unicode scalar value is read as one character, whatever follows |
| `Utf8.CharacterIsEncoded` | rauhad/src/logs.rs:195-198 | every character read is the encoding of a scalar value, so surrogates and overlong forms are none |
| `Utf8.LackingCompletes` | rauhad/src/broker_events.rs:171-175 | appending what cut bytes lack makes them text, and nothing is lacking exactly when they are text |
| `Utf8.LackingIsShortest` | rauhad/src/broker_events.rs:171-175 | whatever makes bytes text starts with at least as many continuation bytes as are lacking |
| `OutputCapture.BoundedLog.constructor` | rauha-shim/src/output.rs:30-50 | a new log is empty, marked incomplete, with its whole budget |
| `OutputCapture.BoundedLog.Write` | rauha-shim/src/output.rs:52-69 | the new contents, budget and loss flag for whole-record and partial writes, with the error case |
| `OutputCapture.BoundedLog.Finish` | rauha-shim/src/output.rs:71-77 | the marker goes only if nothing was lost and both calls succeed |
| `OutputCapture.LogIsAPrefix` | rauha-shim/src/output.rs:52-69 | over any writes and failures the file is a prefix of what was offered, all of it unless loss was recorded, and nothing is written after a gap |
| `OutputCapture.RecordsStored` | rauha-shim/src/output.rs:52-69 | under any failures the log holds whole records from the first, then exactly the torn piece of the one record whose write failed, and nothing after it; it stops only at a failure or at a record that does not fit |
| `OutputCapture.WholeRecordsKept` | rauha-shim/src/output.rs:52-69 | the case without failures: exactly the longest run of records from the first that fits |
| `OutputCapture.Drain` | rauha-shim/src/output.rs:95-130 | the file is the first bytes received, and the marker goes if and only if end of file was seen, every call succeeded and the bytes fitted |
| `OutputCapture.CleanIffFaithful` | rauhad/src/logs.rs:169-212 | no issue is raised if and only if the capture was finished and the file readable, text, and within the limit |
| `OutputCapture.IssuesNameTheStream` | rauhad/src/logs.rs:175-205 | a reading raises no issue if and only if it is clean, and every issue carries its stream's name |
| `OutputCapture.DecodeCapped` | rauhad/src/logs.rs:190-212 | what is shown is the decoded text, or the longest text that leaves room for the marker followed by the marker, within the limit |
| `OutputCapture.ReadTextCapped` | rauhad/src/logs.rs:169-212 | the text shown and the exact issues for a missing, unreadable, unfinished, malformed or long log; without an issue the text is the file |
| `OutputCapture.NoMarkerMeansEverything` | rauha-shim/src/output.rs:80-137 | in every interleaving of workload, drain thread and reader, a reader that saw no marker read everything the workload ever wrote |
| `Dsse.PaeInjective` | rauha-evidence/src/dsse.rs:178-195 | equal encodings have equal payload types and equal payloads, for all byte strings |
| `Dsse.PaeAsText` | rauha-evidence/src/dsse.rs:178-195 | the encoding as text is the protocol's formula with decimal lengths and single spaces |
| `Receipts.SignedReceiptVerifies` | rauha-evidence/src/receipt.rs:117-175 | a signed receipt verifies if and only if its schema is the supported one |
| `Receipts.SignedEnvelopeVerifies` | rauha-evidence/src/dsse.rs:71-172 | a signed envelope verifies under its key and yields a statement about the image's reference and bare digest, with the whole payload |
| `Receipts.AcceptedReceiptIff` | rauha-cli/src/commands/sandbox.rs:251-297 | the client accepts a receipt if and only if its schema is supported, a 32-byte key verifies its 64-byte signature over its payload, and the payload agrees with the result in every covered field |
| `Receipts.AcceptedEnvelopeIff` | rauha-cli/src/commands/sandbox.rs:298-326 | the client accepts an envelope if and only if it accepts the receipt, the receipt's key verifies the envelope's signature over the pre-authentication encoding, and it carries the statement about that payload |
| `Receipts.AcceptedWasIssued` | rauha-evidence/src/receipt.rs:153-175 | under a key that verifies only issued messages, every accepted payload was issued, and an envelope's signature does not serve a receipt |
| `Receipts.VerifiedEnvelopeWasIssued` | rauha-evidence/src/dsse.rs:96-140 | under such a key every verified envelope carries the statement of an issued payload, and a receipt's signature does not serve an envelope |
| `Receipts.ReceiptCoversResult` | rauha-cli/src/commands/sandbox.rs:251-328 | changing any covered field while keeping an accepted receipt makes the check yield no receipt, or the outputs collide under the hash |
| `SortedText.SortDedupAscends` | rauhad/src/server.rs:2095-2096 | the tidied issue list is strictly ascending |
| `SortedText.AscendingUnique` | rauhad/src/server.rs:2095-2096 | a strictly ascending list is determined by its members |
| `SealedResult.SignedResultVerifies` | rauhad/src/server.rs:2089-2110 | whatever is signed for the right task and zone passes the client's check in both forms, yielding the covering payload: the outcome filled in, everything about the admission kept |
| `SealedResult.CutOnce` | rauhad/src/server.rs:2114-2130 | one cut halves the events, or else the longer stream at a character boundary, lists exactly what shrank and changes nothing else |
| `SealedResult.SealBoundedResult` | rauhad/src/server.rs:2084-2136 | terminates; cuts are forced one by one by the budget; a sealed result fits, is a cut of the input with exactly the right issues, and carries receipts for itself; refusal only when signed metadata alone is too large |
| `SealedResult.UncutIfItFits` | rauhad/src/server.rs:2111-2113 | a result that fits as it is is not cut |
| `SealedResult.ValidateRecoveryBudget` | rauhad/src/server.rs:2140-2155 | a record is admitted if and only if its schema is right and its signed minimal result takes at most 1 MiB |
| `SealedResult.SealAdmitted` | rauhad/src/server.rs:2084-2155 | sealing happens if and only if the record is within the budget; then the outcome is a signed cut of the result within 4 MiB, or refusal of metadata too large on its own, and it is sealed unless signed metadata grew by more than 3 MiB |
| `SealedResult.StreamDelivered` | rauhad/src/server.rs:2111-2130 | a sealed stream without an issue was read cleanly and not cut |
| `SealedResult.ReadAllCapped` | rauhad/src/server.rs:1544-1558 | the result before sealing holds exactly what the reader shows of both streams and exactly their issues |
| `SealedResult.Deliver` | rauhad/src/server.rs:1544-1558 | end to end: without a `stdout.` issue delivered stdout is byte for byte what the workload wrote (likewise stderr); with one it is a cut of what was read; both receipts are accepted; clean output that fits is delivered whole; refusal only for an unsupported schema or metadata too large on its own |
| `TaskOwnership.StepKeepsInv` | rauhad/src/server.rs:2376-2587 | every request step, transaction outcome, crash, recovery step and delete keeps the ownership invariant |
| `TaskOwnership.AtMostOnceBetweenDeletes` | rauhad/src/server.rs:2376-2395 | after a command has started, in every run its identifier is not started again unless it is deleted in between |
| `TaskOwnership.NeverReplayed` | rauhad/src/server/recovery.rs:23-95 | the same from any state in which the identifier has run, across crashes and recovery |
| `TaskOwnership.ExecutionIsRecorded` | rauhad/src/server.rs:2476-2494 | a start happens only with the identifier owned, reserved, recorded and not yet run; a record or container disappears only after the result is saved |
| `TaskOwnership.SavedResultsAreImmutable` | rauhad/src/metadata/results.rs:43-59 | only an explicit delete changes a saved result |
| `TaskOwnership.RequestOwnsIff` | rauhad/src/server.rs:2376-2395 | a request owns its identifier if and only if the identifier is new, there is room and the commit is seen; the whole new state either way |
| `TaskOwnership.TransactionsEnd` | rauhad/src/server.rs:2476-2587 | for every way a commit can end: what recording, saving, finishing and giving up leave in the store, and whether the request goes on |
| `TaskOwnership.DeleteRemovesIff` | rauhad/src/server.rs:2241-2287 | a delete removes the slot if and only if the identifier is not active, has no recovery record and the commit happens; nothing else changes |
| `TaskOwnership.SmoothRunLeavesItsResult` | rauhad/src/server.rs:2376-2587 | a request that meets no failure leaves exactly its result; deleting it gives back the state before the request |
| `TaskOwnership.RecoveryCompletes` | rauhad/src/server/recovery.rs:23-140 | from any crash start-up can finish without starting a command: saved results stay, every interrupted task gets one, no record or container remains |
| `TaskOwnership.ServesOnlyRecovered` | rauhad/src/main.rs:152-154 | the daemon begins to serve only when no record or container awaits recovery |
| `TaskOwnership.CrashKeepsTheStore` | rauhad/src/server.rs:1247-1264 | a crash loses the active set and the requests, never the store |
| `TaskOwnership.RefusalReleasesOnlyItsOwn` | rauhad/src/server.rs:1247-1264 | a refusal releases an identifier that never ran; its slot leaves the store unless a recovery record was written after all or the delete is lost; no other identifier is touched |
| `TaskOwnership.ResultsFitCapacity` | rauhad/src/metadata/results.rs:11-41 | in every reachable state the stored results fit the configured capacity |
| `BrokerLog.ParseLines` | rauhad/src/broker_events.rs:55-70 | the loop returns the well-formed lines' decisions in order and notices malformed ones |
| `BrokerLog.LineEndings` | rauhad/src/broker_events.rs:57 | a line ends at its newline, and one carriage return before that belongs to the ending |
| `BrokerLog.Tailer.Poll` | rauhad/src/broker_events.rs:155-200 | after each poll of a growing file, what was sent is exactly the decisions of the whole lines before the offset |
| `BrokerLog.ReadPast` | rauhad/src/broker_events.rs:171-196 | one window past the offset yields the decisions of its whole lines and consumes exactly those; a torn last line or a window that is not UTF-8 is left |
| `BrokerLog.FollowingMissesNothing` | rauhad/src/broker_events.rs:155-200 | over any sequence of growing snapshots the offset is at a line start and each whole line before it was sent once, in order |
| `BrokerLog.CatchesUpIff` | rauhad/src/broker_events.rs:155-200 | polling a finished log reaches its end if and only if no offset on the way is stuck before a window that is not UTF-8 or has no newline |
| `BrokerLog.CatchesUpIffTame` | rauhad/src/broker_events.rs:155-200 | in terms of the file: reached if and only if it is UTF-8, every line is complete within 1 MiB, and no window the polls stop before is cut inside a character |
| `BrokerLog.TameLogIsReadWhole` | rauhad/src/broker_events.rs:155-200 | the same from any line, under a condition on all line starts that needs no polling to check |
| `BrokerLog.ReadWholeMeansTame` | rauhad/src/broker_events.rs:155-200 | only UTF-8 logs of complete lines, each within a window, are read to their end |
| `BrokerLog.StalledForGood` | rauhad/src/broker_events.rs:171-179 | the tailer stays at an offset however the file grows if and only if the bytes in its window cannot be completed, inside the window, to text with a newline |
| `BrokerLog.TornCharacterStalls` | rauha-shim/src/output.rs:62-66 | a log that a failing write leaves, whose whole line is never sent by the tailer and is returned by the one-shot reader |
| `BrokerLog.ReadDecisionsCapped` | rauhad/src/broker_events.rs:29-73 | the decisions of the decoded, capped log and the exact issues in every case |
| `BrokerLog.TailerAgreesWithReader` | rauhad/src/broker_events.rs:29-73 | a tailer that caught up with a UTF-8 log within the cap has sent what the one-shot reader returns |
| `BrokerLog.ReadWholeIsSentWhole` | rauhad/src/broker_events.rs:29-73 | polls that reach the end of a finished log within the cap have together sent what the one-shot reader returns |
| `BrokerLog.StoredRecordsAreRead` | rauha-shim/src/broker/decision.rs:121-126 | under any write failures, reading the stored log, raw or decoded, yields the decisions of the whole records from the first, in order, and at most one more for the torn piece |
| `RunLifecycle.NamedReplayIsReplay` | rauha-common/src/run.rs:49-129 | reducing a trace by event names is the fold over classified events |
| `RunLifecycle.StateChangesAre` | rauha-common/src/run.rs:70-93 | for every state, name and emitter: the reducer moves to a state if and only if the state's table lists that name, emitter and target |
| `RunLifecycle.NotesAre` | rauha-common/src/run.rs:97-114 | an event is accepted without changing the state if and only if it is a catalogued note from its emitter, the Run exists, and after its end only the closing ones |
| `RunLifecycle.UnknownsAre` | rauha-common/src/run.rs:115-120 | an event is handed back as unknown if and only if its name is in no catalogue and the Run has not ended |
| `RunLifecycle.EveryStateIsEarned` | rauha-common/src/run.rs:49-129 | in every accepted journal the current state was entered by a listed event from the state before, and kept since |
| `RunLifecycle.CreationComesFirstAndOnce` | rauha-common/src/run.rs:70-72 | a creation event has only unknown events before it |
| `RunLifecycle.KnownNeedsCreation` | rauha-common/src/run.rs:122-124 | every known event comes at or after a creation |
| `RunLifecycle.TerminalIsAbsorbing` | rauha-common/src/run.rs:62-66 | after acceptance or discarding the state never changes and only the custodian's closing events are accepted |
| `RunLifecycle.LateStatesAreEarned` | rauha-common/src/run.rs:88-93 | an accepted Run's last three state changes are proof started, proof finished and accepted, all by the supervisor |
| `RunLifecycle.UnknownEventsAreTransparent` | rauha-common/src/run.rs:115-120 | a trace is accepted if and only if it is without its unknown events and none of these follows the end; the final state is the same |
| `RunLifecycle.LateUnknownIsRefused` | rauha-common/src/run.rs:62-66 | a concrete journal that is refused for an unknown event after its end, and accepted without it |
| `OpenClassifier.GrantsOnlyTighten` | rauha-shim/src/broker/classify.rs:109-180 | for all 64-bit arguments a grant keeps every resolve bit asked for, sets exactly one containment bit, forbids at least magic links, and is anchored at the root exactly for absolute paths |
| `OpenClassifier.GrantedIffPlainRead` | rauha-shim/src/broker/classify.rs:109-229 | a grant is given if and only if the arguments are well-formed and ask for a plain read; it mirrors the descriptor flags, refuses symbolic links exactly when asked, and adds no other restriction |
| `OpenClassifier.DenialsByErrno` | rauha-shim/src/broker/classify.rs:109-229 | which errno a denial carries, for each errno exactly when |
| `OpenClassifier.OpenatIsOpenat2` | rauha-shim/src/broker/classify.rs:85-107 | openat is openat2 at full size with no resolve bits, grants, errnos and reasons included |
| `ImageReference.ParsedIsShaped` | rauha-oci/src/reference.rs:17-81 | what every parsed reference satisfies: a registry-like, normalised registry, no stray separators |
| `ImageReference.SlashedReference` | rauha-oci/src/reference.rs:34-73 | `first/rest:tag` belongs to the registry `first` exactly when it has a dot or colon or is localhost, with Docker Hub's aliases normalised, and else to the Docker Hub user `first` |
| `ImageReference.BareReference` | rauha-oci/src/reference.rs:34-67 | `app` and `app:tag` are official images, with latest as the default tag |
| `ImageReference.PortIsNoTag` | rauha-oci/src/reference.rs:35-49 | a registry's port is not taken for a tag |
| `ImageReference.DigestReference` | rauha-oci/src/reference.rs:23-32 | text after the first at sign must be a SHA-256 digest, is kept, and does not change how the name is read |
| `ImageReference.SurroundingBlanksAreIgnored` | rauha-oci/src/reference.rs:18-21 | blanks around a reference do not matter, and blanks alone are refused |
| `ImageReference.AsciiBlanks` | rauha-oci/src/reference.rs:18 | among ASCII characters the blanks are tab to carriage return, and space |
| `ImageReference.TaggedRoundTrip` | rauha-oci/src/reference.rs:17-91 | parsing the printed form of any parsed reference without a digest gives it back |
| `ImageReference.DigestFixedPointIff` | rauha-oci/src/reference.rs:17-91 | with a digest, the printed form is a fixed point if and only if the repository's last segment has no colon, and then registry, repository and digest come back |
| `ImageReference.DigestCounterexample` | rauha-oci/src/reference.rs:17-91 | a concrete reference whose printed form is not a fixed point |

## Left out

- Journal directory details: file modes, symbolic-link and regular-file checks, the parent directory's sync, the writer lock and `Busy`. One lock holder at a time is assumed.
- Journal read errors: a read that fails ends `open` or `replay` with an error and no effect. They are not separate steps.
- Journal power loss: renames are atomic, a synced file keeps its bytes, and a tail that was never synced may vanish or turn to garbage. `TailIsNeverTouched` therefore speaks of runs without power loss; `DurableTailSurvives` covers power loss for the synced part.
- `WriteAndPublish` drives the eight calls of an append in a loop over the storage protocol's steps, where the code writes them one after another.
- Journal errors: a refusal is one outcome; which error it returns, when several apply, is not modelled.
- serde_json's own limits: whether it parses a record is a parameter. The model does not compute that input within depth 120 is never refused by it.
- Exec handshake: pty set-up, ioctl calls and the relay loops are omitted. No fourth process inherits the pipes, pids are not reused while the handshake runs, and a write to a closed pipe is an error, not a signal.
- Capture: timeouts are choices of the environment. The result of `SandboxExecResult::runtime_error`, which carries no capture issues, is not covered by `Deliver`.
- Lengths: `usize` saturation is not modelled, and the encoded length of a result is a parameter (`wire`).
- Receipts: the enforcement totals, the key files and the trusted-key check.
- `SealAdmitted` compares the signed metadata of the result with that of the admitted record. It does not bound how much status, times and issues add to it.
- Task ownership: the daemon's requests are modelled as steps on values, not as objects, because they interleave. What the container runtime does is reduced to a container existing or not.
- Tailer: the claim set that keeps one tailer per container, its polling interval and its check that the container still exists.
- Open classifier: flag values are those of x86_64. What the broker does with a grant is not modelled.
- The rest of Rauha: gRPC handlers, zone registry and policy, containerd shim, eBPF hooks, registry client, image unpacking, terminal rendering. They are plumbing over other libraries or short branches.
