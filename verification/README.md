# Milhouse: verified models of its durable core

This Dafny 4.11 project models the parts of Milhouse on which durability and identity rest, and proves what they
promise. `dafny verify dfyconfig.toml` checks everything.

* **The structured-log store** (`Log*.dfy`). A small storage engine over one directory: an active segment, rotated
  segments, a staging file and a lock. A directory maps names to inodes, an inode is its bytes and the length known to
  be on the device, and a file system also carries every version of the directory a power cut may leave, however old the
  entry changes it undoes. Each system call may be refused, tear, or be the last one before the host stops, with or
  without power. `StructuredLogStore`, recovery and retention are written step by step against that kernel. A ledger
  records, per sequence, which events are promised; a `Host` runs arbitrary scripts of commands on any number of stores
  and keeps a trace of what was acknowledged (`LogTrace.dfy`), to which `LogBooks.dfy` holds the log.
* **Canonical JSON** (`Canonical*.dfy`, `Json*.dfy`, `Utf8.dfy`, `Clock.dfy`) and the log wire built on it
  (`LogLines.dfy`, `LogWire.dfy`, `LogEvent*.dfy`): the budgeted encoder against a pure normal form, a reader, and
  unique parsing. `JsonLayout.dfy`, `Calendar.dfy`, `LogGrammar.dfy` and `LogContents.dfy` say which texts, dates, names
  and segments these are without the functions that print, count, check and parse them.
* **Record identity** (`Identity.dfy`, `Records.dfy`, `RecordTheorems.dfy`): base32 digest tokens, identity, dedupe and
  content projections, exactly which records and outbox frames share a token, and replay of outbox frames. Two texts
  agree there when they are equal once folded.
* **Atomic publication** (`Publication.dfy`, `OutboxAck.dfy`): no-overwrite creation, identity-bound removal and the
  acknowledgement writer, under a failure of any call and with other processes binding names in between.
* **Graphs** (`LicenseGraph.dfy`, `WorkflowGraph.dfy`): dependency closures and paths of the licence check, and the job
  graph of a workflow.

Three findings about the code are stated as theorems in `LogLimits.dfy`, each with exactly when it happens and with a
method that reaches it by system calls from the empty directory:

1. A staging header torn after its thirty-byte preamble and before its line feed is refused by every recovery
   (`TornStagingIsRefusedIff`). A power cut before the header's first sync may leave it at any length (`StageAndDie`).
2. `_repair_active` completes a rotation without syncing the trailer it read. If the process had died between writing
   and syncing the trailer (`CloseAndDie`), a power cut right after recovery's link leaves an active segment under two
   names and without a trailer, which recovery then refuses for good (`UnsyncedTrailerMayStick`). While rotations are
   certified, some stop of a recovery leaves such a twin if and only if the trailer it finds is not on the device
   (`RecoveryMayStickIff`). No event is lost, and after a power cut the situation cannot arise (`PowerCutSyncsTrailers`).
   The ledger's `certified` flag is withdrawn only when a recovery begins on an unsynced trailer; while it stands, every
   rotation is certified in every version of the directory and none is stuck.
3. `flush` syncs the file and not the directory. Its events survive every power cut if and only if every version of the
   directory that a power cut might leave binds the active inode, as long as no other segment of that sequence holds the
   same events (`FlushSurvivesIffAnchored`). A process that is killed between publication's rename and the directory
   sync is enough to break this: the next store opens the directory, which is settled, and its acknowledged and flushed
   events can vanish with the whole file, without a trace, or be left in a staging file that recovery refuses
   (`FlushAfterAKill`). On a synced directory every flush of the active segment is safe (`SyncedDirectorySecures`).

The third finding bounds the run theorem, `LogRuns.Run`. A power cut ranges over every version of the directory. If it
undoes a change older than the operation it strikes, the disk's `lost` flag is set and the run ends. What acknowledged
rotations and securing flushes covered is still there, certified rotations have their bytes, and every sequence shows
lines that were appended to it in the run, each at most once and in their order. Such a cut needs an earlier command that
failed or was interrupted (`Interrupted`): a command that begins on a synced directory cannot meet it, and one that is
acknowledged leaves a synced directory synced. Recovery succeeds on exactly the recoverable directories, whatever made
them, and loses no event; within the rotation bound it restores the whole invariant even after such a cut
(`LogRecovery.SalvagedIsOk`, `LogRuns.ComeBack`).

The documentation of `log_store.py` promises recovery at every write, fsync and rename boundary; where it and the code
part, as in 1, 2 and 3, the model follows the code.

Replay identity holds within one collector version: the source generation is a digest of that version, so a new version
gives the same frame another record_id and content_hash, and the same dedupe_key
(`FileOutbox.ReplayIsStableIffSameVersion`, `FileOutbox.DedupeKeyIsStable`).

## Model

The first 66 rows, down to `WorkflowGraph.DependsOnExactly`, are the main results; the rows after them are the operations and lemmas they rest on, module by module.

| member | source | states |
|---|---|---|
| `LogRuns.Run` | src/milhouse/core/log_store.py:652-1012 | for every script of opens, appends, rotations, flushes, closes, recoveries, retentions, crashes and boots by any number of stores: the log is acknowledged lines, each at most once, in order of acknowledgement, and each on the UTC day of its segment's header; every line in the log at an acknowledged rotation, or flush that secured it, is in it for good unless its sequence is deleted; rotations keep their bytes while certified; the run goes up to the first power cut that undoes a directory change older than the operation it strikes, which needs an earlier command that was not acknowledged; after that cut the covered lines and the rotations are still there, and every sequence shows lines that were appended to it in the run, each at most once and in their order |
| `LogTrace.CoveredLinesLast` | src/milhouse/core/log_store.py:901-973 | in any run, a line that is in the log at a covering acknowledgement is in its account for good, unless its own sequence is deleted later |
| `LogBooks.ReduceBooks` | src/milhouse/core/log_store.py:1792-1863 | a stop or a deletion keeps log and account equal, taking nothing that is sure but what was being deleted; after an undone change the log still begins with what is sure |
| `LogBooks.AppendBooks` | src/milhouse/core/log_store.py:886-899 | an acknowledged append keeps log and account equal, adding its line to both |
| `LogRuns.ComeBack` | src/milhouse/core/log_store.py:1027-1069 | after any run, also one that ended in an undone change: recover, recover, open; without further faults the first succeeds iff the directory is recoverable and loses nothing, the second changes nothing, and the directory opens iff it is within the rotation bound and has a sequence left; when no change was undone, recoverable means not stuck and the bound holds; when one was, recovery within the bound restores the whole invariant over what is left |
| `LogFilesystem.HaltSurvives` | src/milhouse/core/log_store.py:1035-1047 | a crash anywhere, whichever version of the directory it leaves, keeps every promise, every sealed inode and the certification of rotations, and adds no event to any inode; unless it undoes a change older than the operation, which it cannot when the operation began on a synced directory, it keeps the invariant and loses at most the end of the log |
| `LogVersions.FirmCut` | src/milhouse/core/log_store.py:1035-1047 | whichever version of the directory a power cut leaves, and however much of every file, every promise is kept |
| `LogLimits.FlushSurvivesIffAnchored` | src/milhouse/core/log_store.py:961-973 | in every good state, the events of a synced inode survive every power cut over every version of the directory iff every version binds the inode under the active or its rotated name (for the only-if, no other segment of the sequence holds those events) |
| `LogLimits.FlushAfterAKill` | src/milhouse/core/log_store.py:354-395 | from the empty directory: a first process is killed between the rename and the directory sync, a second opens, appends and flushes with every call succeeding, and then one power cut leaves an empty log with nothing to recover and another a directory recovery refuses |
| `LogLimits.TornStagingIsRefusedIff` | src/milhouse/core/log_store.py:1218-1247 | a staging write torn after k bytes is refused by recovery iff k lies past the preamble's thirty bytes and before the whole line |
| `LogLimits.StageAndDie` | src/milhouse/core/log_store.py:354-380 | from the empty directory: the header is staged and the process stopped before the sync; a power cut may leave every prefix of what was written, and recovery refuses it iff its length lies strictly between thirty and the whole line |
| `LogLimits.UnsyncedTrailerMayStick` | src/milhouse/core/log_store.py:1147-1215 | recovery links a trailer it has not synced; a power cut right after the link then leaves an active segment that every later recovery refuses, with no event lost |
| `LogLimits.RecoveryMayStickIff` | src/milhouse/core/log_store.py:1147-1215 | while rotations are certified, some stop of a recovery, by a crash at any of its calls and over every version of the directory, leaves a stuck twin iff the trailer recovery finds is not on the device |
| `LogLimits.CloseAndDie` | src/milhouse/core/log_store.py:901-942 | from the empty directory, every call succeeding: append, flush, sync, write the whole trailer and stop before its sync; a recovery cut at its link then leaves the event under a stuck twin |
| `LogLimits.PowerCutSyncsTrailers` | src/milhouse/core/log_store.py:1072-1169 | after a power cut no trailer is unsynced, so the previous case needs a recovery without a reboot |
| `LogLimits.SequenceMayRestart` | src/milhouse/core/log_store.py:718-731 | a store that finds no active segment starts one above the highest surviving rotation, so pruning that rotation first lowers the next sequence |
| `LogStore.StructuredLogStore.Append` | src/milhouse/core/log_store.py:806-884 | success adds the line at the end of the log, on the UTC day of its segment's header and under a header of the store's retention; the descriptor is the old one iff line and reserved trailer bytes fit, that day is the old header's and its retention the store's, and otherwise the rotated segment is certified; the running fields are exact; any failure leaves log and promises; success iff open, within the line bound, coherent, and rotation possible when due |
| `LogStore.StructuredLogStore.RotateLocked` | src/milhouse/core/log_store.py:915-959 | the old segment is its digested bytes plus the one trailer its fields determine, certified under its own sequence, everything is promised, and the successor carries the next sequence; refused exactly at the rotation bound, an unrepresentable deadline or sequence overflow |
| `LogStore.StructuredLogStore.Flush` | src/milhouse/core/log_store.py:961-973 | success promises every event, except those of the active segment when it is not this store's or some version of the directory a power cut might leave does not bind its inode; it fails without a fault only when closed |
| `LogStore.StructuredLogStore.Open` | src/milhouse/core/log_store.py:681-714 | succeeds on exactly the settled directories; on good ones the only refusals are recovery required, bad retention and sequence overflow |
| `LogRecovery.Recover` | src/milhouse/core/log_store.py:1027-1069 | on any well-formed directory recovery succeeds without a fault iff it is recoverable, with the stated result; on a good one iff no twin and no staging file is stuck, and otherwise it refuses with the fixed code leaving everything in place; every stop of it is at, or a crash at, one of the snapshots it passes; it settles the directory and is the identity on settled ones |
| `LogRecovery.RepairActive` | src/milhouse/core/log_store.py:1072-1169 | on any directory, succeeds without a fault iff the active segment has one of the repairable shapes, and makes exactly that repair |
| `LogRecovery.RemoveStaging` | src/milhouse/core/log_store.py:1250-1323 | on any directory, succeeds without a fault iff the staging file is absent or a classified artifact; a refusal changes nothing |
| `LogRetention.RetentionApply` | src/milhouse/core/log_store.py:1792-1863 | when it returns, every rotation still there is unexpired or refused, only due ones are gone, and what was deleted is reported exactly: one entry, with its true deadlines, for each rotation that is gone and for the due active segment once its rotated name is gone, the rotations in ascending order, and none for anything else; the active segment's status is true; without a fault it returns iff the days are valid, the rotations can be listed, no deadline overflows and the successor has a sequence left, and then nothing due is left: a due active segment is rotated, replaced and deleted, unless rotations that are not due reach the bound, which is reported as such; under any fault or crash only due segments can lose events |
| `LogRetention.RetentionPreview` | src/milhouse/core/log_store.py:1554-1589 | lists the rotations and the active segment truly, refuses without a fault exactly the uncertifiable ones, says when it returns, and changes nothing |
| `LogEventTheorems.ReaderAcceptsExactlyProjections` | src/milhouse/core/log_wire.py:188-282 | a line is accepted with time t iff it is the bounded projection of a valid event at t |
| `LogContents.ClosedExactly` | src/milhouse/core/log_store.py:1669-1728 | a segment is certified iff its bytes are a bounded header's line, event lines and the line of a trailer with the header's sequence, the number of events, the digest of every byte before it, and the opening plus the captured days as its deadline |
| `LogContents.OpenExactly` | src/milhouse/core/log_store.py:578-597 | a segment is open iff its bytes are a bounded header's line, event lines and a rest without line feed, and these are what the readers find in it |
| `LogGrammar.ValidEventsExactly` | src/milhouse/core/logging.py:35-158 | an event is valid iff its instant is before the year 10000, its name and its metrics' names match the source's regular expression within 128 and 64 characters, at most 32 metrics rise by name with values that fit their kinds, and error code and fingerprint match theirs |
| `LogEventCreation.CreatesExactly` | src/milhouse/core/logging.py:232-300 | creation yields an event iff the specification and the bounds admit the arguments, and it is the one they describe: the specification's name and level, the given instant and fingerprint, the given metrics ordered by name, and no error, the raised code if expected and declared, or else the fixed unexpected one |
| `LogEventCreation.CreatedEventFitsItsLine` | src/milhouse/core/logging.py:260-312 | an event admitted under the metadata bound projects within 4,096 bytes and reads back with its time |
| `LogWire.ParseHeaderExact` | src/milhouse/core/log_store.py:507-532 | a line parses to a header iff it is that valid header's own line |
| `LogWire.ParseTrailerExact` | src/milhouse/core/log_store.py:1669-1710 | a line parses to a trailer iff it is that valid trailer's own line |
| `CanonicalEncoding.CanonicalJsonBytes` | src/milhouse/core/canonical.py:159-182 | succeeds exactly when every limit holds, with the UTF-8 of the normal form, and otherwise names a limit that is broken |
| `CanonicalTheorems.EqualTextIffAgree` | src/milhouse/core/canonical.py:25-156 | two values encode alike iff they agree: equal whole numbers whether integer or float, the two zeros, equal decimals, texts equal once folded, a time and its text, lists item by item and dictionaries key by key |
| `Canonical.LineEndsFold` | src/milhouse/core/canonical.py:25-31 | a CR LF, and a CR before anything but a line feed, normalises as a line feed in its place; with the next row this determines the folding of every text |
| `Canonical.WithoutCrIsNfc` | src/milhouse/core/canonical.py:25-31 | a text without carriage returns is only NFC-normalised |
| `CanonicalTheorems.InsertionOrderIsInvisible` | src/milhouse/core/canonical.py:136-156 | reordering the entries of dictionaries at any depth changes neither success nor text |
| `CanonicalTheorems.ReencodingIsIdentity` | src/milhouse/core/canonical.py:159-182 | re-encoding a parsed canonical text is the identity, within the same limits |
| `JsonRoundTrip.LoadsPrinted` | src/milhouse/core/canonical.py:98-156 | reading a printed value returns it |
| `JsonText.LayoutInjective` | src/milhouse/core/canonical.py:51-79 | distinct normalised decimals never share a text |
| `JsonLayout.ExponentByMagnitude` | src/milhouse/core/canonical.py:66-79 | a decimal is written with an exponent iff its magnitude is below 10^-6 or at least 10^21 |
| `Base32.AcceptsExactlyEncodings` | src/milhouse/domain/identity.py:334-344 | the token validator accepts exactly the encodings of 32-byte digests |
| `Base32.ReencodeCheckIsRedundant` | src/milhouse/domain/identity.py:62-63 | the token pattern alone decides acceptance |
| `Records.EqualIdsMeanAgreement` | src/milhouse/domain/identity.py:209-226 | equal record identifiers mean equal canonical projections or a hash collision |
| `RecordTheorems.DedupeKeysTellApart` | src/milhouse/domain/identity.py:170-238 | two drafts have the same dedupe_key iff they agree on installation, source type, id and namespace, scope, record type, name, every part of the observation and the target's id, unless the hash collides |
| `RecordTheorems.RecordIdsTellApart` | src/milhouse/domain/identity.py:118-226 | two drafts have the same record_id iff they agree on those, the generation, the redaction version and the source's own event and entity identifiers, unless the hash collides |
| `RecordTheorems.ContentHashesTellApart` | src/milhouse/domain/records.py:594-693 | two drafts have the same content_hash iff they agree on all content fields, severity, target, dimensions and data among them; only what a run decides and the collector's version do not count, unless the hash collides |
| `FileOutbox.DedupeKeysTellFramesApart` | src/milhouse/collectors/file_outbox.py:222-294 | two frames get the same dedupe_key iff producer, time, offset and digest, installation, collector id and target id are the same, unless the hash collides |
| `FileOutbox.RecordIdsTellFramesApart` | src/milhouse/collectors/file_outbox.py:222-294 | two frames get the same record_id iff those are and the collector version is, unless the hash collides |
| `FileOutbox.ContentHashesTellFramesApart` | src/milhouse/collectors/file_outbox.py:222-294 | two frames get the same content_hash iff they say the same once redacted, were observed alike and by the same collector version, unless the hash collides |
| `FileOutbox.ReplayIsStable` | src/milhouse/collectors/file_outbox.py:222-294 | the same frame at the same offset yields the same record_id, dedupe_key and content_hash in any later run of the same collector version |
| `FileOutbox.DedupeKeyIsStable` | src/milhouse/collectors/file_outbox.py:222-294 | the dedupe_key is the same in any later run, of any collector version |
| `FileOutbox.ReplayIsStableIffSameVersion` | src/milhouse/collectors/file_outbox.py:369-378 | record_id and content_hash are the same in a later run iff its collector version is, unless the hash collides |
| `FileOutbox.OffsetsDistinguish` | src/milhouse/collectors/file_outbox.py:222-294 | byte-identical frames at different offsets yield different record_ids unless the hash collides |
| `Publication.CreateRegularFile` | src/milhouse/config/filesystem.py:423-650 | for every final name: unless the random token makes it the staged name, no moment shows a part of the content under it, success binds it to exactly the content, an uncertain commit leaves the whole content, and any other error binds nothing of this call; if the token does, which needs a name of the prefix and 32 hexadecimal digits, the call fails and some moment has shown an empty file; every descriptor gets one close attempt |
| `Publication.RemoveRegularFile` | src/milhouse/config/filesystem.py:799-895 | success and an uncertain commit both mean the expected file's name is gone; any other error removed nothing |
| `OutboxAck.WriteOutboxAck` | src/milhouse/outbox/ack.py:170-218 | at every moment the acknowledgement is wholly old or wholly new; success means new, and an error other than an unconfirmed commit means old |
| `LicenseGraph.DependencyClosure` | scripts/check_licenses.py:716-751 | computes exactly the least closure of the active edges, and fails exactly when there is none |
| `LicenseGraph.ClosureIsReachability` | scripts/check_licenses.py:716-751 | the closure is the root and every package at the end of a route of dependencies, each from the package before it or a selected extra of that, none with a marker that fails; its edges are the last steps of routes |
| `LicenseGraph.DependencyPaths` | scripts/check_licenses.py:769-787 | returns exactly the simple paths from the root to the target, and is refused exactly when more than 1,024 paths are visited |
| `LicenseGraph.ValidateExceptionGraph` | scripts/check_licenses.py:790-809 | passes iff both closures exist and every exception is locked at its version, absent from the runtime closure, and reached, within the traversal bound, by its one reviewed path and no other |
| `LicenseGraph.ValidateInventory` | scripts/check_licenses.py:858-937 | passes iff the exceptions hold, every locked package is reachable and supported or Windows-only, evidence covers exactly the conditional packages with locked versions, wheel hashes and acceptable values, and the records are exactly the host's closure with locked versions and acceptable values |
| `LicenseGraph.PassingInventoryCovers` | scripts/check_licenses.py:858-937 | when the host evaluates the lock's markers as some supported environment does, a passing inventory covers every supported environment by records or evidence |
| `WorkflowGraph.ValidateGraph` | scripts/validate_workflows.py:302-328 | succeeds iff every need is declared and the graph has no cycle, having visited all jobs in topological order |
| `WorkflowGraph.DependsOnExactly` | scripts/validate_workflows.py:290-302 | a job without needs depends on nothing, one name on exactly that job, a list of distinct names on exactly its members in order; anything else is refused |
| `LogRuns.Host.Execute` | src/milhouse/core/log_store.py:806-973 | any command at any moment adds exactly one step to the trace and the present file system to those seen, the step fits the command and its reply, the invariant holds, and an operation begun on a synced directory loses no older change and, if acknowledged, leaves the directory synced |
| `LogRuns.Host.AppendTo` | src/milhouse/core/log_store.py:806-829 | an acknowledged append is exactly one line more at the very end of the log, noted as such, and on the UTC day of its segment's header; a failed one leaves the log, or after a crash all but its end |
| `LogRuns.Host.FlushOf` | src/milhouse/core/log_store.py:961-973 | an acknowledged flush covers the whole log if every version of the directory a power cut might leave binds the active inode, and is noted as not covering otherwise |
| `LogRuns.Host.RotateOf` | src/milhouse/core/log_store.py:901-913 | an acknowledged rotation covers the whole log and certifies the closed segment |
| `LogRuns.Host.CloseOf` | src/milhouse/core/log_store.py:975-982 | closing a store leaves the log, or after a crash all but its end |
| `LogRuns.Host.Launch` | src/milhouse/core/log_store.py:681-714 | without a fault, opening succeeds on exactly the settled directories with a sequence left; it changes no event |
| `LogRuns.Host.Recover` | src/milhouse/core/log_store.py:1027-1069 | recovery loses nothing; without a fault it succeeds iff the directory is not stuck, settles it, and is the identity on settled ones |
| `LogRuns.Host.Retain` | src/milhouse/core/log_store.py:1792-1863 | only due sequences are deleted; the others keep their events, or after a crash all but the end of the log |
| `LogRuns.Host.Idle` | src/milhouse/core/log_store.py:806-829 | a crash between operations takes at most the end of the log |
| `LogRuns.LoggedAtTheEnd` | src/milhouse/core/log_store.py:886-899 | on the concatenated log a successful append is an append |
| `LogRuns.CrashKeepsAPrefix` | src/milhouse/core/log_store.py:886-973 | on the concatenated log a crash leaves a prefix |
| `LogRuns.BeliefSurvives` | src/milhouse/core/log_store.py:831-859 | what a store has digested stays a prefix of its file through every other operation, so equal size means equal content |
| `LogTrace.AccountAscends` | src/milhouse/core/log_store.py:806-829 | a sequence holds its own appends only, each once, in the order of their acknowledgement |
| `LogTrace.AccountsAreOrdered` | src/milhouse/core/log_store.py:806-829 | whatever a higher sequence holds was acknowledged after what a lower one holds |
| `LogTrace.LogIsItsSteps` | src/milhouse/core/log_store.py:806-829 | a log that holds what the run recorded is, read in sequence order, the lines of those steps |
| `LogTrace.HeldAfter` | src/milhouse/core/log_store.py:806-973 | how each kind of step changes what a sequence holds and what of it is sure to last |
| `LogBooks.QuietBooks` | src/milhouse/core/log_store.py:901-973 | an operation that adds nothing keeps log and account equal, and if it promised the whole log, all of it becomes sure |
| `LogBooks.SlotIsSourced` | src/milhouse/core/log_store.py:886-899 | whatever a crash has undone, each sequence shows lines appended to it in the run, in order, each by a step of its own |
| `LogBooks.SownIsSourced` | src/milhouse/core/log_store.py:886-899 | an append leaves the events of every inode, shown or not, appended in the run to its sequence in order |
| `LogBooks.NothingNewIsSourced` | src/milhouse/core/log_store.py:1027-1069 | so does every operation that adds no event, and every crash |
| `LogBooks.RetiredKeepTheirBytes` | src/milhouse/core/log_store.py:943-956 | a rotation seen while all were certified has the bytes it had then |
| `LogFilesystem.PreservedTransitive` | src/milhouse/core/log_store.py:831-859 | that no complete line is lost, no retired inode reactivated and no sealed inode changed composes over successive operations |
| `LogVersions.FirmPublish` | src/milhouse/core/log_store.py:381-384 | publishing keeps every promise in every version: what is promised lies in rotations no version lacks |
| `LogVersions.FirmLink` | src/milhouse/core/log_store.py:943-949 | so does linking the rotated name |
| `LogVersions.FirmRetire` | src/milhouse/core/log_store.py:954-956 | so does dropping the active name once the directory is synced |
| `LogVersions.FirmPrune` | src/milhouse/core/log_store.py:1896-1898 | so does deleting a rotation whose promise is withdrawn |
| `LogVersions.FirmFile` | src/milhouse/core/log_store.py:886-968 | so does every write, sync and truncation that leaves a segment with at least its durable events |
| `LogVersions.RotationIsKept` | src/milhouse/core/log_store.py:943-956 | every version has the events of a rotation that is not the active segment's twin |
| `LogLimits.SyncedDirectorySecures` | src/milhouse/core/log_store.py:381-395 | on a synced directory a flush of the active segment secures it |
| `LogStore.StructuredLogStore.Rotate` | src/milhouse/core/log_store.py:901-913 | success retires the old inode under its rotated name, certified, promises everything, and owns a fresh successor |
| `LogStore.StructuredLogStore.Close` | src/milhouse/core/log_store.py:975-982 | the store ends closed and the log is as it was |
| `LogStore.StructuredLogStore.OpenActive` | src/milhouse/core/log_store.py:718-788 | the store's running fields are those of the whole active file, or of a fresh segment one above the highest rotation |
| `LogStore.StructuredLogStore.StartSegment` | src/milhouse/core/log_store.py:790-802 | a fresh synced header is the active segment and the running fields are its |
| `LogStore.StructuredLogStore.CloseAndRetire` | src/milhouse/core/log_store.py:915-958 | after the close and the no-replace move the certified inode bears the rotated name only |
| `LogStore.StructuredLogStore.RequireCoherent` | src/milhouse/core/log_store.py:831-859 | holds exactly when the descriptor is the whole of the active segment under one name |
| `LogStore.StructuredLogStore.WriteLine` | src/milhouse/core/log_store.py:886-899 | a whole write extends log and running fields; a partial one tears the tail without adding an event |
| `LogStore.StructuredLogStore.OpenForAppend` | src/milhouse/core/log_store.py:316-336 | yields the active inode when it has a single name |
| `LogStore.PromiseAll` | src/milhouse/core/log_store.py:915-959 | once the active segment and the directory are synced, every event of the log may be promised |
| `LogStore.HighestIsNext` | src/milhouse/core/log_store.py:723-731 | highest surviving rotation plus one is the least sequence above every rotation |
| `LogStore.KeptUnlessUnsure` | src/milhouse/core/log_store.py:961-973 | after syncing one inode every version keeps every slot, except the active segment's when the inode is not its or is not bound in some version |
| `LogTally.Authenticate` | src/milhouse/core/log_store.py:718-788 | accepts exactly the settled directories, without effect; on a good directory the only refusal is recovery required |
| `LogTally.AuthenticateCurrent` | src/milhouse/core/log_store.py:1397-1466 | the same judgement of the active segment, with its running fields read back exactly |
| `LogTally.JudgeContent` | src/milhouse/core/log_store.py:749-788 | accepts exactly whole open content above the highest rotation; open or closed content otherwise means recovery required |
| `LogTally.ScanEvents` | src/milhouse/core/log_store.py:767-781 | succeeds on exactly the valid event lines and otherwise names the first line that is not one |
| `LogTally.TallyTrailerIsTheirs` | src/milhouse/core/log_store.py:922-932 | the trailer built from the running size, count and digest is the one the file's own bytes determine |
| `LogTally.CountedIsExact` | src/milhouse/core/log_store.py:896-899 | the running fields stay exact over an appended line |
| `LogTally.ActiveLinks` | src/milhouse/core/log_store.py:277-303 | in a good directory the active inode has one name, or two of which one is its own rotated name |
| `LogPublish.PublishFreshCurrent` | src/milhouse/core/log_store.py:354-395 | success leaves the whole synced header under the current name on a synced directory; from a good directory every crash, fault or short write on the way is safe; it fails without a fault only on overflow |
| `LogPublish.StageHeader` | src/milhouse/core/log_store.py:370-380 | the staging file holds the whole header and is synced, or nothing is published |
| `LogPublish.CompleteRotation` | src/milhouse/core/log_store.py:1172-1215 | with two names the second must be the inode's rotated twin, with one the name must be free; afterwards only the rotated name is left, durably |
| `LogPublish.LinkAndRetire` | src/milhouse/core/log_store.py:943-956 | the live link, sync, unlink, sync order: no crash point loses the segment's only name |
| `LogPublish.RetireCurrent` | src/milhouse/core/log_store.py:1205-1208 | the current name goes only after the rotated one is durable |
| `LogPublish.SafeRefusal` | src/milhouse/core/log_store.py:915-959 | a refused call or a crash at it keeps every promise and loses only the end of the log |
| `LogWrites.CloseSegment` | src/milhouse/core/log_store.py:938-941 | sync, trailer, sync: afterwards the segment is closed and durable, and every tear on the way is still an open segment |
| `LogWrites.AppendOk` | src/milhouse/core/log_store.py:886-899 | a whole line on the active segment keeps the invariant and adds one event at the end of the log |
| `LogWrites.TearOk` | src/milhouse/core/log_store.py:886-895 | a torn line keeps the invariant and the log |
| `LogWrites.CloseOk` | src/milhouse/core/log_store.py:934-940 | a whole trailer keeps the invariant and the log and certifies the segment |
| `LogWrites.SingleLink` | src/milhouse/core/log_store.py:845-856 | a single link means the active segment has no rotated name |
| `LogDisk.CutWorld` | src/milhouse/core/log_store.py:1035-1047 | every power-cut outcome of a good directory is good and loses at most undurable events of the active segment |
| `LogDisk.CutClosedFile` | src/milhouse/core/log_store.py:1147-1161 | cutting an undurable trailer reopens the segment with its header and a prefix of its events |
| `LogNames.StageStep` | src/milhouse/core/log_store.py:370-374 | binding the staging name keeps a directory good |
| `LogNames.PublishStep` | src/milhouse/core/log_store.py:381-384 | publishing a whole synced header above every rotation keeps a directory good and the log unchanged |
| `LogNames.LinkStep` | src/milhouse/core/log_store.py:943-949 | linking the closed active segment to its rotated name keeps a directory good, within the rotation bound |
| `LogNames.RetireStep` | src/milhouse/core/log_store.py:954-956 | removing the current name of a linked segment keeps the log |
| `LogNames.TruncateStep` | src/milhouse/core/log_store.py:1137-1141 | cutting the torn tail keeps every event |
| `LogNames.PruneStep` | src/milhouse/core/log_store.py:1896-1898 | deleting a rotation removes exactly its events |
| `LogSteps.AppendStep` | src/milhouse/core/log_store.py:886-895 | writing an event line keeps a directory good and extends one slot |
| `LogSteps.TearStep` | src/milhouse/core/log_store.py:886-895 | a torn write keeps a directory good and the log |
| `LogSteps.CloseStep` | src/milhouse/core/log_store.py:934-941 | a trailer keeps a directory good while a rotation is still allowed |
| `LogSteps.SyncStep` | src/milhouse/core/log_store.py:961-968 | syncing only adds durable events |
| `LogSegments.CloseCertifies` | src/milhouse/core/log_store.py:915-932 | an open segment plus the writer's trailer is one the reader certifies, with the same events |
| `LogSegments.AppendKeepsOpen` | src/milhouse/core/log_store.py:886-899 | an event line keeps a whole segment open and adds itself |
| `LogSegments.CutKeepsOpen` | src/milhouse/core/log_store.py:578-597 | any cut past the header leaves an open segment with a prefix of the events |
| `LogSegments.CutReopensClosed` | src/milhouse/core/log_store.py:1072-1086 | any proper cut of a closed segment leaves an open one |
| `LogSegments.TruncateKeepsOpen` | src/milhouse/core/log_store.py:578-597 | the complete lines of an open segment are a whole open segment with the same events |
| `LogSegments.OpenIsNotClosed` | src/milhouse/core/log_store.py:1669-1728 | no segment is both open and closed |
| `LogContents.TrailerCertifiesOneContent` | src/milhouse/core/log_store.py:1669-1728 | segments closed by the same trailer have the same bytes unless the hash collides |
| `LogFileNames.RotatedNamesExactly` | src/milhouse/core/log_store.py:600-612 | a directory entry reads as a sequence iff it is that sequence's twenty-digit name |
| `LogFileNames.RotatedNameSpelled` | src/milhouse/core/log_store.py:600-612 | that name is structured-log., the twenty digits whose value is the sequence, and .jsonl |
| `LogFileNames.OtherNamesAreNotRotated` | src/milhouse/core/log_store.py:85-97 | current, staging and lock names are no rotations |
| `LogKernel.Disk.Write` | src/milhouse/core/log_store.py:886-895 | a write appends some prefix, fails, or never returns |
| `LogKernel.Disk.CreateStaging` | src/milhouse/core/log_store.py:370-372 | exclusive creation binds a new empty inode or changes nothing |
| `LogKernel.Disk.LinkRotated` | src/milhouse/core/log_store.py:943-948 | a link never replaces an occupant |
| `LogKernel.Disk.ScanRotated` | src/milhouse/core/log_store.py:615-624 | lists exactly the rotated sequences |
| `LogRecovery.RepairFound` | src/milhouse/core/log_store.py:1130-1169 | truncation to the last complete line, or completion of the rotation, and nothing else |
| `LogRecovery.Inspect` | src/milhouse/core/log_store.py:1084-1129 | judges the active segment without touching it |
| `LogRecovery.JudgeLines` | src/milhouse/core/log_store.py:1108-1161 | tells open from certified segments exactly, and refuses an extra link on an open one |
| `LogRecovery.CheckSequence` | src/milhouse/core/log_store.py:1091-1114 | passes exactly above every rotation, or on the highest one's own twin |
| `LogRecovery.ClassifyStaging` | src/milhouse/core/log_store.py:1224-1247 | accepts exactly prefixes of the preamble and whole next headers |
| `LogRecovery.RepairableUnlessStuck` | src/milhouse/core/log_store.py:1072-1169 | in a good directory the active segment is repairable iff it is not a twin that lost its trailer |
| `LogRecovery.RemovableUnlessStuck` | src/milhouse/core/log_store.py:1224-1247 | in a good directory the staging file is removable iff it was not torn past the preamble |
| `LogRecovery.CertifiedIsNotStuck` | src/milhouse/core/log_store.py:1098-1114 | while every rotation is certified no twin is stuck |
| `LogRecovery.VisitedIsOk` | src/milhouse/core/log_store.py:1072-1215 | every snapshot a recovery passes keeps the invariant and the ledger |
| `LogRecovery.RecoveryKeepsLog` | src/milhouse/core/log_store.py:1027-1069 | recovery of any directory loses no event |
| `LogRecovery.RecoveredStays` | src/milhouse/core/log_store.py:1027-1069 | a recovered directory is recoverable without change, and settled iff it is within the rotation bound |
| `LogRecovery.SalvagedIsOk` | src/milhouse/core/log_store.py:1027-1069 | a directory in which a power cut has undone older changes, once recovered within the rotation bound, satisfies the whole invariant again, with every promise kept and the log it showed |
| `LogFilesystem.CutStaysVouched` | src/milhouse/core/log_store.py:1035-1047 | whichever version a power cut leaves, its names are whole segments' names, everything is on the device, every promise is kept, and rotations are certified while the ledger says so |
| `LogFilesystem.CutInherits` | src/milhouse/core/log_store.py:1035-1047 | a cut leaves every inode's sequence and the beginning of its events, and sealed inodes as they were |
| `LogRecovery.OneOfTwo` | src/milhouse/core/log_store.py:1027-1069 | current and staging never coexist in a good directory |
| `LogRecovery.RecoveredIsSettled` | src/milhouse/core/log_store.py:1027-1069 | a recovered directory is one the store opens |
| `LogRetention.ApplyLocked` | src/milhouse/core/log_store.py:1824-1856 | the same, under the lock |
| `LogRetention.PruneExpired` | src/milhouse/core/log_store.py:1731-1752 | deletes only due rotations and reports exactly those, once each, in ascending order and with their true deadlines; every other one is unexpired or refused, and refused without a fault only when it cannot be certified; without a fault it returns iff the rotations can be listed |
| `LogRetention.PruneSpecific` | src/milhouse/core/log_store.py:1755-1789 | the just-closed rotation is deleted when due and otherwise refused; without a fault it is deleted whenever due |
| `LogRetention.RetireDue` | src/milhouse/core/log_store.py:1830-1856 | a due active segment is closed, replaced by a fresh successor and deleted or refused; without a fault it fails only for want of a sequence, stops only at the rotation bound, and deletes the segment whenever its trailer fits |
| `LogRetention.CloseDueActive` | src/milhouse/core/log_store.py:1507-1551 | the due active segment ends under its rotated name, closed by the trailer its fields determine, with every crash point safe |
| `LogRetention.ActiveStatus` | src/milhouse/core/log_store.py:1469-1504 | the status is that of the authenticated active segment, or carries a code; without a fault a code means an unsettled directory, and it fails only on an overflowing deadline |
| `LogRetention.PreviewLocked` | src/milhouse/core/log_store.py:1592-1626 | every rotation is listed once, in ascending order, with its true deadline, or refused; without a fault refusals are exactly the uncertifiable ones, and it returns iff days and count are in bounds and no deadline overflows |
| `LogRetention.ReadClosed` | src/milhouse/core/log_store.py:1635-1666 | accepts exactly the certified rotations under their own sequence |
| `LogRetention.JudgeClosed` | src/milhouse/core/log_store.py:1653-1666 | accepts exactly closed content of the named sequence, with its captured deadline |
| `LogRetention.UnlinkVerified` | src/milhouse/core/log_store.py:1866-1903 | unlinks only an object of the validated inode, size and link count; anything else is left |
| `LogRetention.EffectiveIsEarlier` | src/milhouse/core/log_store.py:1490-1496 | the effective deadline is the opening plus the smaller of captured and policy days |
| `LogRetention.RelaxingNeverExtends` | src/milhouse/core/log_store.py:1592-1615 | a policy beyond the captured days never changes a deadline |
| `LogRetention.RetireIfDue` | src/milhouse/core/log_store.py:1829-1856 | the second half of a pass: the due active segment retired, or reported blocked, exactly as the report says |
| `LogRetention.Succeed` | src/milhouse/core/log_store.py:1832-1846 | the successor is the active segment with a fresh synced header, and the closed segment is deleted or refused |
| `LogRetention.OkHasRoom` | src/milhouse/core/log_store.py:879-884 | a segment this protocol wrote leaves room for its trailer |
| `LogWire.HeaderIsCanonical` | src/milhouse/core/log_wire.py:370-386 | the header line is the canonical encoding of the header's dictionary |
| `LogWire.TrailerIsCanonical` | src/milhouse/core/log_wire.py:389-407 | the trailer line is the canonical encoding of the trailer's dictionary |
| `LogWire.TrailerIsTrailerLine` | src/milhouse/core/log_store.py:555-562 | every trailer line is recognised as one |
| `LogWire.HeaderLineLength` | src/milhouse/core/log_wire.py:370-386 | header lines stay within their bound |
| `LogWire.TrailerLineLength` | src/milhouse/core/log_wire.py:389-407 | trailer lines stay within the reserved bytes |
| `LogWire.HeaderStartsWithPreamble` | src/milhouse/core/log_store.py:1218-1221 | every header line begins with the thirty-byte preamble |
| `LogEventTheorems.EventIsCanonical` | src/milhouse/core/log_wire.py:79-108 | the event line is the canonical encoding of the event's dictionary |
| `LogEventTheorems.ProjectedLineIsAccepted` | src/milhouse/core/log_wire.py:188-282 | every bounded projection is accepted with its time |
| `LogEventTheorems.AcceptedLineIsProjected` | src/milhouse/core/log_wire.py:188-282 | every accepted line is the exact re-encoding of its fields |
| `LogEventTheorems.AcceptedLineIsEventLine` | src/milhouse/core/log_store.py:535-562 | no event line is mistaken for a trailer |
| `LogEvents.ValidateWireEventMetrics` | src/milhouse/core/log_wire.py:155-185 | the metrics loop accepts exactly the readable, strictly ordered lists |
| `LogGrammar.MachineNamesExactly` | src/milhouse/core/logging.py:35-79 | a machine name is a bounded match of its regular expression |
| `LogGrammar.ErrorCodesExactly` | src/milhouse/core/errors.py:12-27 | an error code is a match of one of its two regular expressions within 128 characters |
| `LogGrammar.FingerprintsExactly` | src/milhouse/core/logging.py:39-42 | a fingerprint has a kind iff it is the literal, a bounded epoch, that kind and 52 symbols, joined by underscores |
| `LogEventCreation.CreatedIsValid` | src/milhouse/core/logging.py:260-300 | whatever creation yields is a valid event within the metadata bound |
| `LogEventCreation.PreparesExactly` | src/milhouse/core/logging.py:215-229 | the prepared metrics are the given ones in strict order of name, and are refused iff more than 32, undeclared, or of equal names |
| `LogEventCreation.MetadataCounted` | src/milhouse/core/logging.py:302-312 | the metadata size is the characters of timestamp, names, kinds, values' notation, error code plus one, and fingerprint |
| `LogEventCreation.EventLineLength` | src/milhouse/core/logging.py:302-312 | a line exceeds its metadata size by at most a fixed overhead |
| `LogEventCreation.PreparedMetricsAreValid` | src/milhouse/core/logging.py:215-229 | prepared metrics are sorted, unique and the given ones |
| `JsonText.LayoutDenotesItsDecimal` | src/milhouse/core/canonical.py:51-79 | in all three layouts the text denotes sign, digits and exponent exactly |
| `JsonLayout.LayoutShape` | src/milhouse/core/canonical.py:66-79 | without an exponent a decimal is digits, a point and digits; with one it is one digit, a fraction if more digits remain, and a signed exponent |
| `JsonLayout.EscapedExactly` | src/milhouse/core/canonical.py:34-40 | quotes, backslashes and control characters are escaped and nothing else, by a letter where there is one and by four hexadecimal digits otherwise |
| `JsonLayout.QuotedInOrder` | src/milhouse/core/canonical.py:34-40 | a quoted text is the escapes of its characters in order between two quotes |
| `JsonRoundTrip.PrintInjective` | src/milhouse/core/canonical.py:98-156 | distinct values print differently |
| `JsonRoundTrip.NoRawLineFeed` | src/milhouse/core/canonical.py:34-40 | printed text contains no raw line feed |
| `CanonicalEncoding.CanonicalEncoder.EncodeValue` | src/milhouse/core/canonical.py:98-123 | the encoder succeeds exactly within depth, node, range and key limits and prints the normal form, counting its nodes |
| `CanonicalEncoding.CanonicalEncoder.EncodeArray` | src/milhouse/core/canonical.py:131-134 | the same for lists |
| `CanonicalEncoding.CanonicalEncoder.EncodeObject` | src/milhouse/core/canonical.py:136-156 | the same for dictionaries, sorted by UTF-8 key order |
| `CanonicalEncoding.CanonicalEncoder.NormalizeKeys` | src/milhouse/core/canonical.py:138-150 | fails exactly on a key that is no text, has a surrogate, or collides |
| `CanonicalTheorems.AgreeIsNormalEquality` | src/milhouse/core/canonical.py:25-156 | agreement is equality of normal forms |
| `CanonicalTheorems.SameScalarIsNormalEquality` | src/milhouse/core/canonical.py:25-123 | scalars with a text have the same normal form iff they are of the same kind and value as listed above |
| `CanonicalTheorems.WholeNumbersInRange` | src/milhouse/core/canonical.py:43-56 | a whole number, as an integer or a float, is refused iff outside the signed 64-bit range |
| `CanonicalTheorems.ShuffledIsReordered` | src/milhouse/core/canonical.py:136-156 | shuffling one dictionary is such a reordering |
| `Canonical.NormalTextIdempotent` | src/milhouse/core/canonical.py:25-31 | string normalisation is idempotent |
| `Utf8Order.ByteOrderIsCodePointOrder` | src/milhouse/core/canonical.py:152-155 | sorting keys by UTF-8 bytes is sorting by code points |
| `Utf8Order.BytesAreUtf8` | src/milhouse/core/canonical.py:152-155 | the bytes of a character are those of section 3 of RFC 3629: shortest form, lead byte, six bits a byte |
| `KeySort.SortIgnoresOrder` | src/milhouse/core/canonical.py:152-155 | the sorted keys do not depend on insertion order |
| `Clock.ParseFormat` | src/milhouse/core/clock.py:94-102 | a formatted timestamp parses to its instant |
| `Clock.FormatInjective` | src/milhouse/core/clock.py:94-102 | distinct instants format differently |
| `Calendar.InstantOf` | src/milhouse/core/clock.py:94-102 | the instant of a civil time counts whole years by the 4, 100 and 400 year rule and months by their own lengths |
| `Calendar.ValidDays` | src/milhouse/core/clock.py:94-102 | a civil time is valid iff its day is within its month, 29 days in the Februaries of leap years |
| `Calendar.RangeEnds` | src/milhouse/core/clock.py:72-102 | an instant is representable iff it is before the year 10000 |
| `Calendar.SameDaySameDate` | src/milhouse/core/log_store.py:876-884 | two instants lie on one UTC day iff their timestamps show one date |
| `Base32.DecodeOfEncode` | src/milhouse/domain/identity.py:219-220 | encoding then decoding 32 bytes is the identity |
| `Base32.EncodeSpellsTheNumber` | src/milhouse/domain/identity.py:219-220 | the symbols are the base 32 digits, in the alphabet of RFC 4648, of sixteen times the digest's number |
| `Base32.FinalSymbolIsPad` | src/milhouse/domain/identity.py:62-63 | the last character is a or q iff the four pad bits are zero |
| `Base32.EncodeOfDecode` | src/milhouse/domain/identity.py:334-344 | fifty-two symbols re-encode to themselves iff their pad bits are zero |
| `Records.DerivedTokensAreValid` | src/milhouse/domain/identity.py:223-238 | derived identifiers pass the token validator |
| `Records.DomainsAreApart` | src/milhouse/domain/identity.py:209-238 | what is hashed for a record_id, a content_hash and a dedupe_key is never the same |
| `Records.HexBytesSpelled` | src/milhouse/domain/identity.py:209-220 | the bytes encoded are those whose hexadecimal digits the digest shows |
| `Records.RunsShareIdentity` | src/milhouse/domain/records.py:660-693 | drafts that differ only in what a run decides, its collector's version included, share identity, dedupe and content projections |
| `Records.DifferentPartsDiffer` | src/milhouse/domain/records.py:660-672 | drafts whose observation parts differ have different record identifiers unless the hash collides |
| `Records.EqualDigestsMeanAgreement` | src/milhouse/domain/identity.py:209-238 | equal domain digests mean equal normal forms or a hash collision |
| `Records.GenerationsDiffer` | src/milhouse/domain/records.py:660-693 | drafts of different source generations have different record identifiers and content hashes unless the hash collides |
| `RecordTheorems.EqualDedupeKeysMeanAgreement` | src/milhouse/domain/identity.py:235-238 | equal dedupe keys mean equal dedupe projections or a hash collision |
| `FileOutbox.FrameDigestsTellApart` | src/milhouse/collectors/file_outbox.py:351-357 | two frames have the same digest iff they agree in every field, unless the hash collides |
| `FileOutbox.RedactionHides` | src/milhouse/collectors/file_outbox.py:297-331 | attributes that differ only in texts the redactor maps alike leave no trace in the record's data |
| `FileOutbox.RedactionKeeps` | src/milhouse/collectors/file_outbox.py:297-348 | every attribute keeps its place and name, a text becomes the clamped answer of the redactor, and nothing else changes |
| `Publication.Attempt` | src/milhouse/config/filesystem.py:465-572 | the flags staged, published and uncertain tell the state of the staged file at every way out |
| `Publication.Stage` | src/milhouse/config/filesystem.py:476-545 | the staged inode bears its own name only, a prefix and 32 hexadecimal digits, and holds the content when nothing failed |
| `Publication.Publish` | src/milhouse/config/filesystem.py:546-590 | published means the final name shows the whole content; uncertain means it may; a staged file that already has the final name is never published |
| `Publication.VerifyPublished` | src/milhouse/config/filesystem.py:562-590 | verification neither changes nor unbinds the published file |
| `Publication.Release` | src/milhouse/config/filesystem.py:614-632 | the staged inode is emptied unless it is or may be published, and its descriptor closed once |
| `Publication.ContentMatches` | src/milhouse/config/filesystem.py:404-420 | the read-back holds iff the whole file equals the expected bytes |
| `Publication.WriteAll` | src/milhouse/config/filesystem.py:503-513 | the write loop ends with exactly the content |
| `Publication.OpenChain` | src/milhouse/config/filesystem.py:143-188 | whatever fails on the walk, only the last directory's descriptor may stay open |
| `Publication.InspectLeaf` | src/milhouse/config/filesystem.py:781-796 | reports the inode the name is bound to, with every descriptor closed again |
| `Publication.Volume.RenameNoReplace` | src/milhouse/config/filesystem.py:218-248 | an uncertain rename may or may not have happened, any other failure has not |
| `Publication.SyncParent` | src/milhouse/config/filesystem.py:727-778 | syncing the parent changes nothing and closes what it opened |
| `Publication.ShownEmptyIsTorn` | src/milhouse/config/filesystem.py:481-505 | showing an empty file under the final name is just what the guarantee excludes |
| `Publication.StagingNamesExactly` | src/milhouse/config/filesystem.py:473-484 | a staging name is forty-eight characters: the prefix and 32 hexadecimal digits |
| `OutboxAck.ReplaceAck` | src/milhouse/outbox/ack.py:202-218 | the replacement installs the whole new content or leaves the old |
| `OutboxAck.StagedAckNameIsApart` | src/milhouse/outbox/ack.py:139-186 | neither the acknowledgement's name nor its staged name can be one the secure writer chooses for itself |
| `OutboxAck.WriteErrorsExactly` | src/milhouse/outbox/ack.py:324-354 | which failures of the staged write each fixed code stands for |
| `LicenseGraph.ClosureIsUnique` | scripts/check_licenses.py:724-751 | the closure depends on the set of initial demands only, not on queue order |
| `LicenseGraph.EnvironmentOnlyShrinks` | scripts/check_licenses.py:729-733 | every environment's closure lies within the one that ignores markers |
| `LicenseGraph.AgreeingEnvironments` | scripts/check_licenses.py:729-733 | environments that evaluate the lock's markers alike have the same closure |
| `LicenseGraph.MatrixClosures` | scripts/check_licenses.py:754-759 | each environment's closure, unless some environment has none |
| `LicenseGraph.SupportByPackage` | scripts/check_licenses.py:842-885 | the support checks, package by package: all of the lock is reachable, what no supported environment needs a Windows one does, and evidence covers exactly what some supported environment needs and another does not |
| `LicenseGraph.ValidateLicenseValues` | scripts/check_licenses.py:812-839 | accepts exactly reviewed copyleft values of an inventory record, or values of which some is known and every known one recognized |
| `WorkflowGraph.Visitor.Visit` | scripts/validate_workflows.py:315-324 | fails only on a cycle, and otherwise adds the job after everything it needs |
| `WorkflowGraph.TopologicalIsAcyclic` | scripts/validate_workflows.py:315-328 | a topological order of all jobs excludes every cycle |
| `WorkflowGraph.CycleCloses` | scripts/validate_workflows.py:316-317 | meeting a job that is being visited closes a cycle |

## Left out

- LogRuns.Run: ends at a power cut that undoes a directory change older than the operation it strikes. Lines that were not covered may be missing after it (finding 3). The order of lines across sequences is not stated there either: when a pruned rotation comes back, a restarted sequence may be lower and later.
- LogKernel.Disk.Truncate: a power cut between `ftruncate` and its `fsync` is modelled as one just before or just after the truncation, which leaves the same files because nothing is written between the two calls.
- LogKernel.Disk.Lock: locks are mutual exclusion; the five-second polling, the commit barrier's own authority checks, and a deleted lock file are not modelled.
- Ownership, mode bits, ACLs, symlinks and the re-walk of the logs path: a failing check is a refused call.
- A process killed while others go on is a refused call in the model, because no operation of the log store writes anything after a refusal; a crash stops every process at once.
- Log files are modelled over characters instead of bytes; every line the writer emits is ASCII. A stored line that is not valid UTF-8 or not compact JSON is represented by a text that does not parse.
- JsonText.Loads: reads compact JSON with minimal numerals; forms it does not read, such as white space or a trailing zero, are those the readers refuse in their re-encoding check. Lenient forms of `strptime` are refused for the same reason.
- LogWire.IsTrailerLine: recognises compact JSON only, where the source's `json.loads` also takes white space and other layouts. On a foreign line that is a trailer in such a layout, the code with which JudgeContent, ScanEvents, JudgeLines and JudgeClosed refuse may differ from the source's; what they accept does not.
- LogRetention.UnlinkVerified: the identity compared is inode, size and link count; the source also compares device, modification and change times, which the model does not have.
- Clock: instants are milliseconds; truncation from microseconds is left out.
- SHA-256, NFC, `repr(float)`, PEP 508 markers, the redactor and the byte clamp of dimension values are fixed functions without further laws, except idempotence and the ASCII identity of NFC. Hash injectivity is stated per pair of inputs.
- LogEventCreation.Create: metric specifications are compared by value where the logger compares them by identity; the stream sink's write loop, the logger's locking and the redacted reprs are left out.
- LogStore.StructuredLogStore.Append: only events that the logger can construct are appended, so the type and timestamp guards that precede the line projection are not modelled.
- Publication.CreateRegularFile: asynchronous exceptions such as an interrupt are left out.
- OutboxAck.WriteOutboxAck: the acknowledgement's own fields and its parser are left out: a bounded canonical object with library-bound field checks.
- LicenseGraph.ValidateInventory: the lock, policy and inventory parsers are left out, and with them that names are unique; the case-folding tests for copyleft markers and unknown values are functions of the policy. Which of several failing checks is reported first is not stated.
- WorkflowGraph.Visitor.Visit: Python's recursion limit is not modelled, and jobs are visited in any order instead of the file's.
- Records: field grammars, pydantic validation and the other record payloads are left out; the projections are those of a draft whose fields are already valid.
- The spool, replay, delivery, state and outbox reader modules, the CLI, ClickHouse, the HTTP client and configuration models are not part of this model.
