# Verified models of the deployment tooling

Dafny models of the protocols and parsers inside the operator scripts of this repository, with proofs of what
they promise. `dafny verify dfyconfig.toml` checks the whole project.

## What is modelled

- **The atomic database transition** (`Transition`, `Outbox`, `StrayState`). Database states hold tables, sequences, the schema
  text and roles. The migration and quarantine library may do anything to the open transaction; everything proved
  follows from the checks the worker makes. A commit takes effect or not and is acknowledged or not; a read-only
  classifier decides afterwards. A table digest sorts row hashes, so it stands for the multiset of rows.
- **The binary COPY decoder** (`CopyStream`, `Utf8`, `Bytes`, `Budget`). The class of the source, fed arbitrary
  chunks, is proved against a state machine on values, and that machine against the encoding of a list of rows (the
  "Binary Format" part of "File Formats" on the COPY page of the PostgreSQL documentation; UTF-8 is section 3 of RFC
  3629).
- **The RESP2 reader, the paged scan and the manifest check** (`Resp`, `RespGrammar`, `StreamScan`, `AofLayout`). The reader over a
  fragmenting socket is proved against a parser on whole byte strings, and that parser returns exactly the values
  whose wire form, after the Redis serialization protocol specification, stands in front. The paged scan is proved against a simple scan of the stream.
- **Crash-safe journals** (`AlertJournal`, `AlertRuns`, `RemoteArtifacts`). Durable files are separate from volatile state. The
  alert journal is a step machine over any number of invocations with torn writes and crashes; the remote-file
  journal is the controller class, in which every external call may fail, so that every early return is a crash point.
- **Leased qualification runs** (`Lease`, `LeaseRuns`, `Deadlines`). One run of either gate as methods over a host,
  any interleaving of many as a step machine over the same host, with every released execution a run of that machine,
  and the clock side with every composition of operation, phase, client, run and cleanup deadlines. An operation may
  lose its record when its output cannot be written.
- **Line projections** (`LineText`, `Transports`, `ProbeRows`). The strict parsers of worker, transport, mount and
  capacity lines over Python's `splitlines`, `split`, `strip` and `join`, and the print-and-reparse check in front of
  the signal script.
- **The canary evaluator** (`Canary`, `Lifecycle`). The accumulator loop against a declarative report, and the two
  SQL predicates in three-valued logic against the order of events they force.

## What turned out not to hold

- The direct resource gate's cleanup never looks at the operations of its run, so it can give the lease back after an
  operation that ended without a CLI-tree proof. `LeaseRuns.DirectGateCanLoseATree` is such a run;
  `LeaseRuns.ReleasedMeansProven` gives the exact condition: the trees are proven if and only if the last process of
  the run phase kept its proof. The Compose gate has no such gap.
- The quarantine checks do not pin the reconciliation state of other outbox rows, nor its two timestamps: the
  projection drops these columns and the exact check looks at ids. `Outbox.ChecksAcceptExactly` says which tables pass,
  and `Outbox.AcceptedIsIntended` when such a table is the intended change: if and only if the four reconciliation
  columns of every other row are null, which a caller can look up. `Transition.AnyOtherStateIsDescribed` and
  `Transition.OutboxIsIntended` carry both over to the database; `StrayState.StrayStateIsAccepted` is a database that
  the worker announces and accepts although another row shows a state.
- Rows returned by `parse_transports` can be refused by `cancel_transport_script`: it takes the first row's control
  group as the boundary, not the server's. `Transports.ParsedQualifies` is the exact condition, and
  `Transports.SiblingsAreRefused` two workers side by side that are parsed and then refused.
- A complete event sequence in which no event carries an exit reason never counts as protected
  (`Lifecycle.NoReasonNoProtection`; `Lifecycle.CompleteWithoutReason` is one that tells the whole story), and an exit
  reason whose lifecycle state is missing is skipped, not rejected (`Lifecycle.MissingStateIsSkipped`).
- The scan of a stream fails at an entry whose sequence number has more than ten digits, although stream ids are 64-bit
  numbers: `StreamScan.AcceptedIds` is the exact condition on an id.

## Model

| member | source | states |
|---|---|---|
| Transition.AtomicTransition | scripts/controlled_runtime_worker.py:1042-1176 | whatever the library does, whichever step fails and whatever becomes of the commit acknowledgement, the database ends exactly as it was or exactly in a state that a durable intent describes, with one commit; an injected or failed attempt commits nothing; an unknown outcome carries an intent computed from the old state |
| Transition.Prepare | scripts/controlled_runtime_worker.py:1058-1148 | everything up to the commit happens in the open transaction: a ready attempt has its intent on disk, the intent describes the working state and was announced from the accepted committed state; only the requested fault is ever reported |
| Transition.AnnouncesExactly | scripts/controlled_runtime_worker.py:562-594 | an intent is announced exactly from an accepted baseline, for the row at the one outbox position whose lease is past, and only if that row is complete, neither published nor dead-lettered, and has an owner |
| Transition.TwoLeasesAreRefused | scripts/controlled_runtime_worker.py:566-567 | two positions with a past lease, and no row is taken |
| Transition.BaselineMeans | scripts/controlled_runtime_worker.py:1026-1039 | the accepted baseline, table by table: the legacy migrations, the recorded rows, sequences and texts |
| Transition.QuarantinedRowMeans | scripts/controlled_runtime_worker.py:1008-1023 | the quarantined row is the one position with a reconciliation id, its outcome unknown and its lease gone |
| Transition.AnnouncedIsQuarantined | scripts/controlled_runtime_worker.py:1228-1268 | between an announced and a described state the announced row kept all but seven columns, lost its lease, and its note tells its old owner, the old end of its lease and the reason of the plan |
| Transition.CheckQuarantined | scripts/controlled_runtime_worker.py:1104-1121 | the checks after the quarantine establish every condition the intent records about the new state |
| Transition.Migrate | scripts/controlled_runtime_worker.py:643-695 | a fault checkpoint is hit after exactly the requested migration, and a completed migration hit none |
| Transition.Apply | scripts/controlled_runtime_worker.py:1953-2049 | one transition is started and none retried; it returns an intent only when that intent is durable and describes the committed database, whether acknowledged or classified after a lost acknowledgement; and whatever it returns, the database is as it was, or an accepted baseline has become, in one commit, a state that a durable intent describes |
| Transition.Rehearse | scripts/controlled_runtime_worker.py:1781-1950 | each of the nine injected faults leaves the database and the commit count untouched; the one later transition committed exactly once, lost its acknowledgement and was classified as committed exactly; the idempotence probe, the only other commit, left the whole history as it was; no rehearsal, passing or not, commits more than twice, and one without a commit leaves the database alone |
| Transition.InjectFaults | scripts/controlled_runtime_worker.py:1838-1875 | a fault that is reported as requested left the database and the commit count as they were, and the nine are the nine of the source; only a fault that failed to fire can have committed, and once |
| Transition.LoseAcknowledgement | scripts/controlled_runtime_worker.py:1876-1912 | success only when the one transition committed exactly once and a durable intent describes the database, although nothing was acknowledged |
| Transition.ProbeIdempotence | scripts/controlled_runtime_worker.py:1914-1927 | success only when the whole history reads the same before and after the second migration and quarantine, which committed once |
| Transition.IdempotenceProbe | scripts/controlled_runtime_worker.py:2061-2098 | one transaction is started and none stays open; it commits at most once, exactly once on success, which needs the quarantined row after the second migration and the answer that it is already quarantined; without a commit the database is as it was |
| Transition.ClassifierDecides | scripts/controlled_runtime_worker.py:1374-1408 | on the two states an announced transition can leave behind, ROLLED_BACK_EXACT if and only if nothing changed and COMMITTED_EXACT if and only if the intent describes the state |
| Transition.CommittedIsDescribed | scripts/controlled_runtime_worker.py:1394-1431 | for an intent that records a possible change, COMMITTED_EXACT is answered exactly when the intent describes the database |
| Transition.RolesDoNotMatter | scripts/controlled_runtime_worker.py:1122-1125 | role grants after the recorded history change neither the classification nor the description |
| Transition.OtherDataIsUnchanged | scripts/controlled_runtime_worker.py:1271-1364 | from the announced baseline to a described state every other legacy table keeps its rows, and sequences, event counter and legacy migration records are as before |
| Transition.NewTablesAreNew | scripts/controlled_runtime_worker.py:1366-1370 | a described state has one identity row, empty new tables and no other table |
| Transition.OutboxIsPinned | scripts/controlled_runtime_worker.py:1104-1121 | and the outbox corresponds row for row, only the target row having changed, in its lease and reconciliation columns |
| Transition.AnyOtherStateIsDescribed | scripts/controlled_runtime_worker.py:1104-1121 | a described database stays described, with the intent of its own history, when any other outbox row is given any reconciliation state and timestamps |
| Transition.OutboxIsIntended | scripts/controlled_runtime_worker.py:1104-1121 | between an announced and a described state the outbox changed exactly as intended if and only if every other row shows four null reconciliation columns |
| StrayState.StrayStateIsAccepted | scripts/controlled_runtime_worker.py:1008-1364 | a concrete baseline and final state that pass every check of the worker although the other outbox row shows an unknown publish outcome |
| Transition.Server.Commit | scripts/controlled_runtime_worker.py:1149-1176 | a commit takes effect as a whole or not at all, and either may go unacknowledged |
| Transition.Evidence.Write | scripts/controlled_runtime_worker.py:166-186 | intent files are create-only; a failed write may or may not have become durable |
| Outbox.ProjectionUndoesQuarantine | scripts/controlled_runtime_worker.py:1228-1364 | projecting the quarantined table gives back the legacy table row for row, one row has a reconciliation id, and the exact check passes |
| Outbox.ProjectionPinsQuarantine | scripts/controlled_runtime_worker.py:1008-1364 | conversely, equal multisets, unique ids, one reconciled row and the exact check force a one-to-one correspondence in which every other row keeps all its legacy columns and the target differs only in lease, last error and reconciliation columns |
| Outbox.ChecksAcceptExactly | scripts/controlled_runtime_worker.py:1008-1364 | the checks accept exactly those tables: for unique ids and an exactly quarantined target, equal multisets and one reconciled row if and only if the one-to-one correspondence holds |
| Outbox.AcceptedIsIntended | scripts/controlled_runtime_worker.py:1008-1364 | an accepted table is the intended change of the legacy table, in some order, if and only if the four reconciliation columns of every other row are null |
| Outbox.OtherRowIsWidened | scripts/controlled_runtime_worker.py:1228-1268 | an accepted other row is its legacy row with four null columns if and only if its reconciliation columns are null |
| Outbox.OtherRowsKeepAnyState | scripts/controlled_runtime_worker.py:1008-1023 | the checks do not pin state and timestamps of other rows: they still pass, and ids stay unique, after any such row is given any of these |
| Outbox.QuarantineMarksOne | scripts/controlled_runtime_worker.py:1008-1023 | the intended change leaves exactly one row with a reconciliation id |
| Outbox.RowIsPinned | scripts/controlled_runtime_worker.py:1228-1268 | the row-level form of the correspondence |
| Outbox.LegacyIdsAreUnique | scripts/controlled_runtime_worker.py:431-470 | a sorted-hash digest is a multiset of rows: equal digests have equal sizes and carry uniqueness of ids over |
| Budget.Budget.Add | scripts/controlled_runtime_worker.py:411-428 | a row is charged even when refused, and is accepted exactly when row count, total bytes, row size and time allow it |
| Utf8.DecodeEncoded | scripts/paper_runtime_history_stream.py:76 | strict UTF-8 decoding undoes encoding (section 3 of RFC 3629) |
| Utf8.EncodeDecoded | scripts/paper_runtime_history_stream.py:76-79 | re-encoding a strictly decoded row gives the same bytes |
| Utf8.ValidIsText | scripts/paper_runtime_history_stream.py:76-79 | the rows that are accepted as UTF-8 are exactly the encoded texts |
| Bytes.SignedRead | scripts/paper_runtime_history_stream.py:53-66 | a nonnegative big-endian field within half the range reads back as the number written |
| Bytes.BigEndianBytes | scripts/paper_runtime_history_stream.py:53-66 | the fields of two and four bytes, most significant byte first |
| Bytes.BelowIsNumeric | scripts/paper_runtime_history_stream.py:79-80 | the order of rows is numeric: at the first difference stands the smaller byte, or the smaller row has ended |
| CopyStream.DecodeInChunks | scripts/paper_runtime_history_stream.py:83-105 | feeding one chunk and then another reaches the state of feeding their concatenation, rejection included |
| CopyStream.ChunkInvariance | scripts/paper_runtime_history_stream.py:83-105 | every splitting into chunks reaches the state of the one-shot parse |
| CopyStream.ExactLanguage | scripts/paper_runtime_history_stream.py:47-112 | the trailer is reached exactly on the header, framed rows and end marker of rows that are valid UTF-8, in byte order and within the budget, and then those are the rows |
| CopyStream.DecodeIsSound | scripts/paper_runtime_history_stream.py:47-82 | the bytes taken are exactly the bytes the reached state stands for |
| CopyStream.EncodingDeterminesRows | scripts/paper_runtime_history_stream.py:47-82 | a stream stands for at most one list of rows |
| CopyStream.RowsAreOrdered | scripts/paper_runtime_history_stream.py:79-80 | comparing each row with the one before puts all of them in ascending numeric byte order |
| CopyStream.AcceptableMeans | scripts/paper_runtime_history_stream.py:68-82 | the rows a stream may stand for: exactly the encoded texts in ascending numeric byte order within row size, row count and byte budget |
| CopyStream.DigestInputIsInjective | scripts/paper_runtime_history_stream.py:81-82 | the length-prefixed digest input determines the rows |
| CopyStream.AcceptanceIsDecided | scripts/paper_runtime_history_stream.py:47-112 | the machine accepts a stream with a command status exactly when some acceptable rows stand behind both |
| CopyStream.StreamVerdict | scripts/paper_runtime_history_stream.py:83-112 | the same for the value machine over any chunks |
| CopyStream.Decode | scripts/paper_runtime_history_stream.py:88-105 | less than a frame is ever pending, so the loop always progresses |
| CopyStream.OrderedTextDigest.constructor | scripts/paper_runtime_history_stream.py:28-37 | the decoder starts at the header of the budget it is given |
| CopyStream.OrderedTextDigest.Write | scripts/paper_runtime_history_stream.py:86-105 | a chunk within the cap moves the state as the value machine does, and otherwise fails the decoder; it fails only for misuse, a rejected stream or the deadline |
| CopyStream.OrderedTextDigest.FeedNext | scripts/paper_runtime_history_stream.py:95-105 | one turn of the chunk loop takes at least one byte and leaves the verdict on the rest unchanged |
| CopyStream.OrderedTextDigest.Feed | scripts/paper_runtime_history_stream.py:98-105 | pending bytes become one frame exactly when it is complete |
| CopyStream.OrderedTextDigest.Frame | scripts/paper_runtime_history_stream.py:47-84 | one frame moves the fields as the value machine does, including the zero-length row |
| CopyStream.OrderedTextDigest.TakeBody | scripts/paper_runtime_history_stream.py:72-85 | a row is taken, counted, ordered and digested exactly when it is admissible, unless the deadline has passed |
| CopyStream.OrderedTextDigest.CheckDeadline | scripts/paper_runtime_history_stream.py:43-45 | the decoder fails exactly when it is late |
| CopyStream.OrderedTextDigest.Finish | scripts/paper_runtime_history_stream.py:107-112 | success only once, after the trailer, with the matching status, returning the row count and the digest input of the rows |
| CopyStream.WriteAll | scripts/paper_runtime_history_stream.py:86-105 | any number of writes takes the sink to the state of their concatenation; it fails only for a chunk over the cap, a rejected stream or the deadline |
| CopyStream.Receive | scripts/paper_runtime_atomic_worker.py:150-158 | a sink written any chunks and finished with a status yields a count and digest if and only if acceptable rows stand behind the bytes and the status, unless a chunk was over the cap or the deadline passed; and they are the count and digest of those rows |
| Resp.ParseEncoded | scripts/cold_redis_acceptance.py:1365-1406 | for every value within the depth, count and byte limits the parser returns it from its wire form and consumes exactly its bytes |
| Resp.EncodingIsPrefixFree | scripts/cold_redis_acceptance.py:1365-1406 | two replies in a row are told apart |
| Resp.RequestParsesBack | scripts/cold_redis_acceptance.py:1409-1421 | a request parses back to its parts |
| Resp.ReplyIsRead | scripts/cold_redis_acceptance.py:1365-1406 | the wire form of a value within the limits is that value with nothing left over |
| Resp.PythonIntOfBytes | scripts/cold_redis_acceptance.py:1373-1384 | the lenient integer reading agrees with canonical decimals |
| RespGrammar.PythonIntMeans | scripts/cold_redis_acceptance.py:1373-1401 | the lenient integers are exactly: white space, a sign, digits with single underscores between them, white space |
| RespGrammar.ParsesExactly | scripts/cold_redis_acceptance.py:1365-1406 | the parser returns a value exactly when one of its wire forms stands in front, simple strings and lenient lengths and counts included, and takes exactly its bytes |
| RespGrammar.WireIsParsed | scripts/cold_redis_acceptance.py:1365-1406 | every wire form of a value is parsed as that value |
| RespGrammar.LinesAreRefused | scripts/cold_redis_acceptance.py:1369-1406 | a plus line is its text, a minus line an error, a colon line without a numeral a malformed integer; lengths and counts without numeral, and other types, are refused |
| RespGrammar.NumbersAreRefused | scripts/cold_redis_acceptance.py:1387-1404 | lengths and counts below minus one or above their bounds are refused, a missing terminator is, and a short bulk string is waited for |
| Resp.LineInPrefix | scripts/cold_redis_acceptance.py:1356-1363 | a line found in a received prefix is the line of the whole |
| Resp.Find | scripts/cold_redis_acceptance.py:1356-1363 | the first line end of the buffer |
| Resp.Connection.Receive | scripts/cold_redis_acceptance.py:1333-1347 | a receive returns any nonempty part of what is left, up to the limit |
| Resp.RESPReader.constructor | scripts/cold_redis_acceptance.py:1324-1331 | nothing received and nothing consumed at first |
| Resp.RESPReader.More | scripts/cold_redis_acceptance.py:1333-1347 | consumed and buffered bytes stay the received prefix, more bytes arrive, and never more than the maximum |
| Resp.RESPReader.Take | scripts/cold_redis_acceptance.py:1349-1354 | exactly the next bytes, however they arrive |
| Resp.RESPReader.ReadLine | scripts/cold_redis_acceptance.py:1356-1363 | exactly the next line, however it arrives |
| Resp.RESPReader.Parse | scripts/cold_redis_acceptance.py:1365-1406 | value, consumed bytes and protocol errors are those of the parser on the whole unconsumed wire, whatever the fragmentation; other failures are the deadline, the byte cap, an early end or the connection |
| Resp.RESPReader.ParseBulkReply | scripts/cold_redis_acceptance.py:1381-1395 | the bulk string, null, length and terminator cases |
| Resp.RESPReader.ParseArray | scripts/cold_redis_acceptance.py:1396-1405 | the array, null and count cases |
| Resp.RESPReader.ParseElements | scripts/cold_redis_acceptance.py:1405-1405 | the elements in order |
| Resp.RESPReader.ParseScalar | scripts/cold_redis_acceptance.py:1369-1380 | simple strings, errors and integers |
| StreamScan.InspectStream | scripts/cold_redis_acceptance.py:1479-1573 | the paged scan gives the classification of the simple scan over the first entries of the stream; the entries its loop looked at in the replies are the first of the stream, each once and in order; it lists exactly their matches, and fails on a reliable connection only for a malformed entry |
| StreamScan.InspectTopic | scripts/cold_redis_acceptance.py:1479-1480 | the scan with the entry and page bounds of the source |
| StreamScan.ScanPages | scripts/cold_redis_acceptance.py:1479-1544 | the page loop: matches so far, entries scanned and completeness |
| StreamScan.NextPage | scripts/cold_redis_acceptance.py:1480-1491 | a page behind the cursor is the next run of entries, none skipped or repeated |
| StreamScan.AfterEntry | scripts/cold_redis_acceptance.py:1481-1491 | the exclusive cursor selects exactly the later entries of an ordered stream |
| StreamScan.ParseIdText | scripts/cold_redis_acceptance.py:1505-1510 | the text of a stream id names that id |
| StreamScan.MatchingGrows | scripts/cold_redis_acceptance.py:1528-1541 | scanning further never loses a match |
| StreamScan.ScanDecides | scripts/cold_redis_acceptance.py:1540-1553 | two matches settle the classification wherever the scan stops |
| StreamScan.ReadEntry | scripts/cold_redis_acceptance.py:1498-1539 | what one entry contributes: malformed, other or a match |
| StreamScan.JudgeMeans | scripts/cold_redis_acceptance.py:1511-1539 | the fields of an entry match exactly when one of them and only one is called data and its value is bytes with the wanted payload; they are malformed exactly when they do not pair up or a name is no text |
| StreamScan.IdAcceptedMeans | scripts/cold_redis_acceptance.py:1505-1510 | an id text is one to twenty digits, a dash and one to ten digits |
| StreamScan.AcceptedIds | scripts/cold_redis_acceptance.py:1505-1510 | a stream id is accepted if and only if its parts have at most twenty and ten digits, so not every 64-bit sequence number is |
| StreamScan.BeforeIsNumeric | scripts/cold_redis_acceptance.py:1481-1491 | ids are ordered as the 128-bit numbers they stand for |
| StreamScan.ReadPage | scripts/cold_redis_acceptance.py:1498-1539 | a page extends the matches and the cursor as the simple scan does |
| StreamScan.VisitEntry | scripts/cold_redis_acceptance.py:1498-1539 | one entry extends matches and cursor, and a malformed one ends the scan |
| StreamScan.Ask | scripts/cold_redis_acceptance.py:1480-1494 | one request lists the entries behind the cursor |
| AofLayout.PersistenceLayout | scripts/cold_redis_acceptance.py:1092-1276 | a mode is returned only when the volume is in it, and a rejection means that it is in none |
| AofLayout.ReadLines | scripts/cold_redis_acceptance.py:1146-1219 | the manifest loop accepts exactly the consistent lists of lines with distinct sequence numbers and types, and lists their components |
| AofLayout.ModesExclude | scripts/cold_redis_acceptance.py:1236-1256 | at most one persistence mode applies |
| AofLayout.ModesMean | scripts/cold_redis_acceptance.py:1092-1276 | each mode on the file names: the manifest as the only one, or no manifest, nothing in the directory, and one of the two single files |
| AofLayout.ConsistentMeans | scripts/cold_redis_acceptance.py:1155-1219 | a line is consistent exactly with one type, one sequence text, ordered offsets on an incremental line only, and its file present |
| AofLayout.AcceptedManifestIsBijective | scripts/cold_redis_acceptance.py:1209-1235 | the listed components are pairwise distinct and are exactly the non-manifest files of the directory |
| AofLayout.AcceptedManifestHasOneBase | scripts/cold_redis_acceptance.py:1220-1225 | exactly one line names a base, and only incremental lines carry offsets, in order and within 63 bits |
| AofLayout.ComponentIsInjective | scripts/cold_redis_acceptance.py:1155-1178 | a component name determines its sequence text and kind |
| RemoteArtifacts.PathsAreDistinct | scripts/controlled_runtime_primary.py:50-64 | the three purposes of one owner never share a path |
| RemoteArtifacts.CleanupEvidence | scripts/controlled_runtime_primary.py:67-201 | evidence is given exactly when all records are consistent; it counts reservations and removals, lists the open purposes, and is verified exactly when every reservation has a removal record |
| RemoteArtifacts.IntentMeans | scripts/controlled_runtime_primary.py:89-140 | an intent is accepted exactly with the owner, revision and purpose of the run, with length and digest for an SQL file and the fixed limit for the dump |
| RemoteArtifacts.RemovalMeans | scripts/controlled_runtime_primary.py:148-194 | a removal is accepted exactly when it repeats its intent and either saw nothing or removed no more than announced, the announced bytes at the announced length |
| RemoteArtifacts.UntamperedIsConsistent | scripts/controlled_runtime_primary.py:67-201 | in every reachable state the evidence is accepted if and only if no record is torn |
| RemoteArtifacts.VerifiedMeansAbsent | scripts/controlled_runtime_primary.py:67-201 | when reservations and removals coincide, no path the run reserved exists in the container |
| RemoteArtifacts.PendingIsEmpty | scripts/controlled_runtime_primary.py:101-201 | no open purpose means every reservation has a removal record |
| RemoteArtifacts.IntentKeepsSound | scripts/controlled_runtime_primary.py:890-912 | writing an intent, whole or torn, keeps: every remote file of the run has a complete intent, and nothing with a removal record exists |
| RemoteArtifacts.CopyKeepsSound | scripts/controlled_runtime_primary.py:836-866 | so does creating a file behind a complete intent |
| RemoteArtifacts.RemovalKeepsSound | scripts/controlled_runtime_primary.py:1023-1040 | so does recording a removal of an absent file |
| RemoteArtifacts.PrimaryController.constructor | scripts/controlled_runtime_primary.py:737-776 | a run starts with an empty record directory, whatever the container holds |
| RemoteArtifacts.PrimaryController.Reserve | scripts/controlled_runtime_primary.py:868-912 | success means the path was absent and its exact intent is on disk for the first time; where no command failed, a refusal has one of five causes |
| RemoteArtifacts.PrimaryController.CopySql | scripts/controlled_runtime_primary.py:836-866 | the container changes only behind a fresh durable intent; success means that the file holds exactly the local bytes, and where no command failed a refusal is one of the reservation |
| RemoteArtifacts.PrimaryController.DumpBackup | scripts/controlled_runtime_primary.py:1182-1241 | the dump is created only behind its intent and its copied digest is remembered |
| RemoteArtifacts.PrimaryController.Identify | scripts/controlled_runtime_primary.py:940-1015 | a file may be deleted exactly if it is plain, within its bound, and the announced SQL or a beginning of it, the known dump, or unknown and begins like a dump |
| RemoteArtifacts.DumpHeaderMeans | scripts/controlled_runtime_primary.py:985-1015 | an unknown dump may be deleted only if it begins with PGDMP or is a beginning of it |
| RemoteArtifacts.PrimaryController.RemoveOwned | scripts/controlled_runtime_primary.py:935-1040 | nothing is deleted without an intent; a deleted file was identified; success means absence and a complete removal record with the right outcome; where no command failed, a refusal means no intent, an earlier record or an unidentified file |
| RemoteArtifacts.PrimaryController.RunSqlFile | scripts/controlled_runtime_primary.py:1042-1061 | success leaves no file and a complete removal record |
| RemoteArtifacts.PrimaryController.RemoveAll | scripts/controlled_runtime_primary.py:1354-1359 | every open intent is attempted, also after one that failed; success leaves none |
| RemoteArtifacts.PrimaryController.DropLogin | scripts/controlled_runtime_primary.py:1342-1353 | the temporary login is dropped exactly if it was provisioned, the workers are clean, its drop is not acknowledged and its file is there |
| RemoteArtifacts.PrimaryController.CleanupPrimary | scripts/controlled_runtime_primary.py:1321-1375 | unless the container is not the expected running one, every open intent is attempted and then the stop, whatever fails; success leaves none open and the source stopped, failure is remembered |
| RemoteArtifacts.PrimaryController.Finish | scripts/controlled_runtime_primary.py:1377-1432 | a run passes only if every path it reserved is recorded as removed and absent and its records are consistent |
| AlertJournal.ValidatedTerminalJournal | scripts/alert_delivery.py:297-365 | accepts exactly the four complete records of a successful run, in time order, by one implementation |
| AlertJournal.AcceptsExactly | scripts/alert_delivery.py:297-365 | an accepted journal is exactly the four written-out records of one implementation, with their counters and in time order |
| AlertJournal.AtMostOneSend | scripts/alert_delivery.py:205-264 | over any number of invocations, interleavings and crashes at most one message is posted, and its reservation record is complete in the journal before |
| AlertRuns.PostedAfter | scripts/alert_delivery.py:205-250 | over any interleaving, a run that sent had before, in this order, written its first record whole, had bot and chat confirmed, and written the identity record and the reservation whole |
| AlertRuns.WrongIdentityNeverPosts | scripts/alert_delivery.py:232-241 | a run whose bot or chat was not confirmed never sends, whatever happens afterwards |
| AlertRuns.GoodRunFinishes | scripts/alert_delivery.py:225-254 | with a confirmed identity, whole writes and a valid answer the run sends once and finishes |
| AlertRuns.FirstInvocationStarts | scripts/alert_delivery.py:216-220 | on a new operations root the first invocation comes to its identification |
| AlertRuns.FailureTellsTheSend | scripts/alert_delivery.py:255-264 | a failure record says SEND_OUTCOME_UNKNOWN if and only if its run has called sendMessage |
| AlertJournal.AcceptedMeansAnswered | scripts/alert_delivery.py:297-365 | an accepted journal comes from a run whose one send was answered with that message id |
| AlertJournal.FinishedIsAccepted | scripts/alert_delivery.py:209-264 | the journal of every fully recorded run is accepted with the answered message id |
| AlertJournal.JournalOnlyGrows | scripts/alert_delivery.py:134-145 | the journal file is never replaced and completed lines stay |
| AlertJournal.StepKeeps | scripts/alert_delivery.py:192-264 | every step, torn writes and crashes included, keeps the invariant of journal, program counters and posts |
| AlertJournal.RunKeeps | scripts/alert_delivery.py:192-264 | the invariant holds after every run |
| AlertJournal.OpsRoot.ReadAcknowledgement | scripts/alert_delivery.py:380-418 | a receipt is accepted exactly when it binds the journal and message id, is not earlier than the terminal record and has the fixed flags |
| AlertJournal.OpsRoot.Acknowledge | scripts/alert_delivery.py:421-453 | a receipt is written exactly for a confirmed acknowledgement of the accepted journal, not earlier than its terminal record, where there is none; a whole one is accepted on reading with the same binding |
| Lease.Execute | scripts/bounded_build.py:1084-1225 | an existing lease is never adopted and a refused run changes nothing; a host without lease has its old inventory; the lease is given back exactly when every step of the execution succeeded, and then the cleanup resolved an ambiguous container to exactly one, for the Compose gate also found an unacknowledged image and proved every CLI tree, and a passing run of either gate has every tree proven |
| Lease.Controller.Cleanup | scripts/bounded_build.py:994-1053 | every unfinished client of the Compose gate is finished; cleanup returns true only with the inventory equal to the baseline, an ambiguous container resolved to exactly one, and for the Compose gate every tree proven and an unacknowledged image found |
| Lease.Controller.Run | scripts/buildkit_resource_gate.py:975-1226 | the baseline is read before anything is created, an existing scope is never adopted, no container or image appears that was not intended before, success means that all of it was acknowledged and every operation proven |
| Lease.Controller.Builds | scripts/bounded_build.py:880-992 | the Compose half creates only images, which it intended before and of which it owned none; success means they were acknowledged and every client and operation proven |
| Lease.Controller.FinishProcesses | scripts/bounded_build.py:995-1000 | exactly the clients not finished before are finished, records already made are kept, and a missing proof is remembered |
| Lease.Controller.ResolveContainer | scripts/buildkit_resource_gate.py:1229-1245 | an unknown creation is resolved only if exactly one owned container exists |
| Lease.Controller.RemoveContainer | scripts/buildkit_resource_gate.py:1246-1255 | at most the one verified container is removed |
| Lease.Controller.RemoveImages | scripts/bounded_build.py:1029-1044 | success means no owned image is left, and an unacknowledged one had been found |
| LeaseRuns.AtMostOneHolder | scripts/buildkit_resource_gate.py:1284-1289 | across any interleaving of runs of both gates at most one holds the lease, and the file names its owner |
| LeaseRuns.FreeMeansRestored | scripts/buildkit_resource_gate.py:1228-1258 | whenever the lease is free the host has the inventory it started with |
| LeaseRuns.ReleasedMeansProven | scripts/buildkit_resource_gate.py:1228-1258 | a lease given back means a completed cleanup, ambiguous creations included, and for the Compose gate and every passing run each process ended with its tree proven and no output overflow; for the direct gate the trees are proven if and only if the run phase did not end at a lost proof |
| LeaseRuns.DirectGateCanLoseATree | scripts/buildkit_resource_gate.py:1228-1258 | a run of the direct gate that gives the lease back with an unproven CLI tree, whatever else its lost and its last process were |
| LeaseRuns.ReleasedIsARun | scripts/buildkit_resource_gate.py:1261-1390 | every execution that gives the lease back, with the outcome the controller methods promise, is a run of the machine with the same processes, beliefs, inventories and verdict |
| LeaseRuns.StepKeeps | scripts/bounded_build.py:1113-1225 | every step of every run keeps the lease invariant |
| LeaseRuns.LeaseMoves | scripts/buildkit_resource_gate.py:1284-1289 | the lease file appears only with a new run where there is none, and goes only with a checked run whose name it holds; only that run counts as having given it back |
| LeaseRuns.EnteringMeans | scripts/bounded_build.py:1113-1125 | a new run is refused where there is a lease, and otherwise goes on only behind a whole lease file |
| LeaseRuns.StepChangesOwn | scripts/buildkit_resource_gate.py:1228-1258 | a step changes only resources that carry the label of its run |
| LeaseRuns.LostProofFails | scripts/bounded_build.py:505-557 | a lost proof ends the run phase, and the run has failed |
| LeaseRuns.RunKeeps | scripts/bounded_build.py:1113-1225 | the invariant holds after every interleaving |
| Deadlines.BoundedFinish | scripts/buildkit_resource_gate.py:734-757 | a proof is a clock reading taken during the call and no later than the deadline, of an exited process and an empty job; without a proof one of these answers or the time was missing |
| Deadlines.Native.DirectCall | scripts/buildkit_resource_gate.py:772-874 | one recorded operation at most, begun only with more than the four seconds of a proof left and otherwise refused for that reason; success means a proof no later than the deadline of the operation |
| Deadlines.Native.Start | scripts/bounded_build.py:441-492 | a client is started only with more than the four seconds of a proof left, and otherwise refused for that reason; its operation ends that long before the deadline it was given |
| Deadlines.Native.Poll | scripts/bounded_build.py:494-503 | a client seen running is before the end of its operation |
| Deadlines.Native.Finish | scripts/bounded_build.py:505-557 | the proof is no later than the client's own deadline, the caller's, and the time of one proof; a finished client is not finished again |
| Deadlines.Native.ComposeCall | scripts/bounded_build.py:565-585 | one operation of the Compose gate, finished whatever happens |
| Deadlines.Controller.Call | scripts/buildkit_resource_gate.py:895-910 | the deadline of an operation is at most that of the run and that of its phase |
| Deadlines.Controller.Observe | scripts/buildkit_resource_gate.py:944-951 | a probe is over before the end of its nine seconds and of the run |
| Deadlines.Controller.CancelledClient | scripts/bounded_build.py:895-968 | every call while the client works ends within its 20 s, every call and the proof of the cancelled client within 15 s more and within those 20 s, and all within the run's deadline |
| Deadlines.Controller.Run | scripts/bounded_build.py:801-992 | every operation of the run phase is within the work time |
| Deadlines.Controller.Cleanup | scripts/bounded_build.py:994-1053 | every proof of the cleanup is within the cleanup deadline; when it succeeds for the Compose gate every client has a recorded proof |
| Deadlines.Execute | scripts/bounded_build.py:1118-1156 | no proof of the run phase is later than its operation or started + 160 s, none of the cleanup later than 20 s after its start or started + 180 s, and a passing run has a proof without overflow for every operation |
| Transports.CancelAcceptsExactly | scripts/bounded_build.py:367-394 | the script is written for exactly the one to four canonical rows with distinct pids and one namespace that lie at or below the first row's group and print within the text limit |
| Transports.AdmissibleMeans | scripts/bounded_build.py:367-394 | those rows, field by field, with ancestry by path components |
| Transports.RenderedReparses | scripts/bounded_build.py:381-394 | printing such rows and parsing the text gives the same rows |
| Transports.RenderedParses | scripts/bounded_build.py:344-394 | rows seen below any server group parse back from their print under that group |
| Transports.ParsedQualifies | scripts/bounded_build.py:344-394 | parsed rows can be signalled if and only if the first row's group is an ancestor of, or equal to, every other |
| Transports.SiblingsAreRefused | scripts/bounded_build.py:344-394 | two workers side by side below the server group are parsed, and the script that should signal them is refused |
| Transports.SignalsExactlyTheRevalidated | scripts/bounded_build.py:395-408 | the script signals each given process once, in order, if all still have their start time, control group, namespace, user and program, and none otherwise |
| Transports.ParseTransports | scripts/bounded_build.py:344-364 | rows are returned exactly when they fit the text; a rejection means that none do |
| Transports.ParseWorkers | scripts/buildkit_resource_gate.py:261-294 | the worker loop returns exactly the rows of its lines |
| Transports.ParsedRows | scripts/bounded_build.py:344-364 | every row comes from its own line, is canonical, and prints no longer than the line |
| Transports.RequestCancellation | scripts/bounded_build.py:772-799 | every process signalled was among those first seen, and the request fails exactly when the first or the remaining processes are unfit or a new one appeared |
| Transports.CgroupPathIsCanonical | scripts/buildkit_resource_gate.py:250-258 | a parsed group path parses to itself and is never longer than its text |
| Transports.CgroupPathMeans | scripts/buildkit_resource_gate.py:250-257 | a control group text is accepted exactly with its mark, a leading slash, path characters and no part of two dots |
| Transports.CgroupPathTrims | scripts/buildkit_resource_gate.py:258-258 | its path is the text without the slashes at the end, of which the root keeps one |
| Transports.NamespaceMeans | scripts/buildkit_resource_gate.py:263-263 | a namespace is digits in brackets behind cgroup: and nothing else |
| Transports.BelowIsAncestry | scripts/buildkit_resource_gate.py:281-283 | a path lies below a parent exactly when the components of the parent come first |
| Transports.ProjectionLines | scripts/bounded_build.py:361-361 | projecting, stripping and splitting lines again gives the projected lines |
| LineText.UnsignedIsDecimal | scripts/buildkit_resource_gate.py:420-428 | a numeric field is accepted exactly when it is the decimal text of a number in range |
| LineText.LinesOfJoin | scripts/bounded_build.py:381-386 | splitting joined nonempty lines gives the lines |
| LineText.SplitOfJoin | scripts/bounded_build.py:381-386 | splitting joined fields gives the fields |
| LineText.JoinOfSplit | scripts/buildkit_resource_gate.py:262-272 | joining the fields of a line gives the line |
| LineText.FieldsOfPrefix | scripts/buildkit_resource_gate.py:281-283 | the fields of a text begin with those of another exactly when the text is the other or goes on behind a separator |
| LineText.LinesStep | scripts/bounded_build.py:351-351 | splitlines ends a line at each of its ten breaks, a carriage return taking a line feed with it |
| LineText.StripsBetween | scripts/buildkit_resource_gate.py:266-266 | strip leaves what stands between white space |
| ProbeRows.ParseMounts | scripts/buildkit_resource_gate.py:438-523 | a proof is returned exactly when eleven lines tell every domain and path once under the private policy, one container namespace, and the same daemon before and after |
| ProbeRows.ParseCapacity | scripts/bounded_build.py:293-341 | the same for capacities, for the expected daemon |
| ProbeRows.ReadTable | scripts/buildkit_resource_gate.py:445-490 | the loop accepts exactly lines that decode and never repeat a key, and indexes them |
| ProbeRows.MountsIgnoreOrder | scripts/buildkit_resource_gate.py:438-523 | reordering the lines changes neither verdict nor result |
| ProbeRows.CapacityIgnoresOrder | scripts/bounded_build.py:293-341 | reordering the lines changes neither verdict nor result |
| ProbeRows.MountsAreUnique | scripts/buildkit_resource_gate.py:438-523 | the lines determine the result |
| ProbeRows.PrintedIsProven | scripts/buildkit_resource_gate.py:374-523 | the lines the probe prints for a proof under the policy prove exactly it |
| ProbeRows.MountIsPrinted | scripts/buildkit_resource_gate.py:374-436 | a mount line is accepted exactly in the form in which the probe prints it, with numbers in range |
| ProbeRows.IdentityIsPrinted | scripts/buildkit_resource_gate.py:389-393 | so is an identity line |
| ProbeRows.NamespaceIsPrinted | scripts/buildkit_resource_gate.py:395-395 | so is a namespace line |
| ProbeRows.CapacityIsPrinted | scripts/bounded_build.py:310-332 | so is a capacity line, of sizes that fit its path |
| ProbeRows.MountRange | scripts/buildkit_resource_gate.py:474-492 | what a mount line may show: three or four octal digits and numbers of 32 bits |
| ProbeRows.ProvenMounts | scripts/buildkit_resource_gate.py:491-523 | in a mount proof every path is private to user 1000, and all but the snapshot data forbid executables |
| ProbeRows.PolicyIsEnough | scripts/buildkit_resource_gate.py:491-523 | and lines that show this, once each, are a mount proof |
| ProbeRows.ProvenCapacities | scripts/bounded_build.py:316-341 | in a capacity proof each path has its fixed size in one of two block sizes, and no more is free than there is |
| ProbeRows.MountLineReads | scripts/buildkit_resource_gate.py:395-411 | a printed mount line says, field by field, what was printed |
| ProbeRows.IdentityLineReads | scripts/buildkit_resource_gate.py:389-393 | a printed identity line says what was printed, to both parsers |
| ProbeRows.CapacityLineReads | scripts/bounded_build.py:310-332 | a capacity line of the fixed format says what was printed |
| ProbeRows.OnceIsOrderFree | scripts/buildkit_resource_gate.py:445-490 | being told exactly once depends on the lines and not on their order |
| ProbeRows.CoveredIsDistinct | scripts/buildkit_resource_gate.py:491-502 | when every wanted key is told once, no line is left over |
| Canary.Evaluate | scripts/paper_canary_acceptance.py:177-514 | the loop computes the report whose every failure, gap, coverage entry and counter is stated declaratively, or the fixed report on malformed evidence |
| Canary.VisitAll | scripts/paper_canary_acceptance.py:400-466 | the running state covers the trades visited |
| Canary.Visit | scripts/paper_canary_acceptance.py:408-466 | one trade extends every accumulator as stated |
| Canary.ReportIgnoresOrder | scripts/paper_canary_acceptance.py:177-514 | permuting the trades gives the same report |
| Canary.ReportIsUnique | scripts/paper_canary_acceptance.py:177-514 | identical evidence gives an identical report |
| Canary.SumPermutes | scripts/paper_canary_acceptance.py:412-413 | a total over the trades does not depend on their order |
| Canary.PassIsAcceptable | scripts/paper_canary_acceptance.py:360-491 | PASS if and only if the snapshot is acceptable: scope, recovery, no stray effect, every trade in order and terminal, every filled trade protected flat, all five symbols and three exits covered, totals equal to the positive aggregates |
| Canary.PassedTrades | scripts/paper_canary_acceptance.py:408-466 | a PASS rests on settled trades alone: one lineage, an end without failure, complete public facts, and for each fill a protected round trip; each symbol traded and each exit ended one |
| Canary.PassedSnapshot | scripts/paper_canary_acceptance.py:360-491 | and, exactly, on the dedicated scope, a recovered second start, no stray effect, and totals equal to the positive aggregates |
| Canary.UnsettledFails | scripts/paper_canary_acceptance.py:420-466 | a trade that is not settled, or filled without a round trip, makes the report a FAIL |
| Canary.MalformedIsInvalid | scripts/paper_canary_acceptance.py:184-352 | the fixed report is given exactly for evidence with an empty text, a listed value twice, or a count or quantity below zero |
| Canary.AccountMeans | scripts/paper_canary_acceptance.py:52-52 | an account is the prefix and one to forty-eight lower-case letters, digits and inner dashes |
| Canary.NoFailures | scripts/paper_canary_acceptance.py:363-475 | no failure is reported exactly when nothing fails |
| Canary.NoGaps | scripts/paper_canary_acceptance.py:387-489 | no gap is reported exactly when nothing is missing |
| Lifecycle.ContiguousIsNumbered | scripts/paper_canary_acceptance.py:635-640 | min = 1, max = count and distinct = count hold exactly of the permutations of 1 to n, n positive |
| Lifecycle.ProtectedIsTold | scripts/paper_canary_acceptance.py:658-745 | the protected sequence holds exactly when the events tell the one story in order, with fitting exits, at least one of them, and the trade's filled quantity |
| Lifecycle.AggregatesForceLifecycle | scripts/paper_canary_acceptance.py:635-745 | both together: the decision is event 1, the first fill precedes stop, target and exit in their order, and the filled exit is event n, n at least eight |
| Lifecycle.NoReasonNoProtection | scripts/paper_canary_acceptance.py:723-736 | events without an exit reason never qualify, since the aggregate over none is unknown |
| Lifecycle.CompleteWithoutReason | scripts/paper_canary_acceptance.py:658-745 | a contiguous sequence that tells the whole story with the right quantity and names no reason is not protected |
| Lifecycle.MissingStateIsSkipped | scripts/paper_canary_acceptance.py:723-736 | a sequence in which a named reason has no lifecycle state is protected as long as another one fits |
| Lifecycle.PassMeansLifecycles | scripts/paper_canary_acceptance.py:408-745 | a PASS rests on a complete lifecycle for each of the five symbols |
| Lifecycle.ExitsMean | scripts/paper_canary_acceptance.py:723-736 | the boolean aggregate skips unknown inputs and needs one true one |
| Lifecycle.ExitsFitMeans | scripts/paper_canary_acceptance.py:723-736 | on the events: only the three reasons, no state that fits neither its reason nor flat, and one pair that fits |
| Lifecycle.SoleMeans | scripts/paper_canary_acceptance.py:661-721 | on the events: the one event of a type, and the fill, partial or not, with the least number |
| Lifecycle.ToleranceMeans | scripts/paper_canary_acceptance.py:737-743 | the quantity may differ by a billionth of itself, and always by a trillionth |
| Lifecycle.CountOne | scripts/paper_canary_acceptance.py:661-681 | a filtered count is one exactly when one event is selected |
| Lifecycle.MinMeans | scripts/paper_canary_acceptance.py:682-721 | a filtered minimum is the least selected number |
| Lifecycle.MaxFilledMeans | scripts/paper_canary_acceptance.py:737-743 | the largest known quantity of a fill |

## Left out

- Docker, GPG, Git, PowerShell, Windows job objects, ACLs, sockets, HTTP and the database driver are steps with the
  outcomes the code distinguishes; remote commands are taken not to act after their process tree was killed.
- SHA-256 and canonical JSON are injective: a digest is represented by the content it digests.
- The schema text, the migrations and the persistence library are not part of this model; only the worker's checks of
  their results are.
- Checks of types, file attributes, ownership and fixed header fields of JSON records are one case, a record of
  another shape.
- The constants and the budget of the snapshot module are parameters; that module is not part of this model.
- Resp.PythonIntOfBytes: Python's limit of 4300 digits when reading an integer is not modelled.
- StreamScan.InspectStream: the time and byte bounds of the connection appear as a connection that may fail; the probe of
  the server identity before the scan and the truncated list of ids in the receipt are not modelled.
- Transports.ParseWorkers: decimal digits outside ASCII, which `isdecimal` accepts, are treated as rejected; the
  transport lines are restricted to ASCII digits before.
- Transition.IdempotenceProbe: what the second migration and quarantine do is not constrained; the rehearsal compares
  the history before and after.
- RemoteArtifacts.PrimaryController.RemoveOwned: the re-reading of the run's own intent file and of the file's
  metadata around the deletion is not modelled, because nobody else changes the run directory or these paths here.
- AlertJournal.RunKeeps: the counters of a failure record other than its stage are not modelled, and a failed write of
  the first record ends the invocation.
- Lease.Controller.Run: the readiness, worker and cancellation observations inside a run are operations that may
  fail; what they observe is modelled by the line projections.
- The payload hash check of the expired outbox row, role grants and permission probes, receipts and their text.
- The renaming of scan states in historical receipts is a table of constants.
- The wall-clock text of journal times is its value as a number.
- Canary.Evaluate: texts the evaluator does not tell apart are kept under their name, so that a known text never
  appears as another; the fixed report on a failed collection differs only in its reason and is not modelled.
- Topology and release validators, receipt builders, the fresh recovery and clone rehearsal orchestration and the
  alert fixture: conjunctions of constant checks, container plumbing or input and output.
