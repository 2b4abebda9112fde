# Flight recorder: a Dafny model

The recorder writes an append-only event log of an agent's model traffic, correlates and
summarises that log, keeps a hash-chained audit log, and runs a collector daemon that
serves remote requests and survives crashes. This project models the parts of it whose
correctness is not visible in any single function, and proves what they promise over all
inputs, all interleavings and all runs.

| file | what it models |
|---|---|
| `CollectorProtocol.dfy` | the request protocol as a machine over single steps, with a crash or a failing call between any two |
| `CollectorDaemon.dfy` | the daemon object, whose every change is one of those steps |
| `Audit.dfy`, `AuditLimits.dfy` | the audit log down to its bytes: append, verify, search, and the log at its record limit |
| `CollectorAudit.dfy` | the protocol's audit entries read from that file |
| `RemoteConfig.dfy` | merging a remote configuration and narrowing a new run's policy by it |
| `CorrelationIngest.dfy` | out-of-order response events, pending maps, the ingest pass |
| `CorrelationCandidates.dfy` | the time index, the identifier index and the candidate search |
| `CorrelationDerive.dfy` | the greedy matching of anchors, retry chains, what a run appends |
| `Summary.dfy` | the fold over the event log and the completeness flags |
| `Blobs.dfy` | blob names, the directory inventory, the fate of every referenced blob |
| `JsonScan.dfy`, `Comments.dfy`, `TlsMarkers.dfy` | three byte automata |
| `SealedContexts.dfy` | associated data, framing, sealing and opening |
| `Egress.dfy` | egress rule resolution with lookups finishing in any order |
| `Basics.dfy`, `Options.dfy`, `Bytes.dfy`, `Sorting.dfy`, `CorrelationTypes.dfy` | shared definitions |

What the recorder takes from outside is a parameter: hashing, the AEAD, JSON coding, DNS,
the header-name check of the HTTP library, clocks and fresh identifiers are functions or
arguments; answers of the platform and failing writes are arbitrary values. Nothing is
assumed of the record hash (two logs with one last hash are equal or the theorem names a
collision). The AEAD is assumed correct and authentic in its associated data
(`SealedContexts.Ideal`, met by `SomeAeadIsIdeal`). Fixed label texts are constructors of enumerations where the
code only compares them. Ordered sets whose order the code does not use are Dafny sets.

## Where the code does not do what one would say of it

- A response event without a value, coming after the request summary, clears the status or
  terminal state a transport already had; before the summary it is ignored
  (`CorrelationIngest.LaterEventClears`, exact condition in `LastValueIsAttached`).
- Of several response identifiers that come before the request summary only the last is kept
  (`CorrelationIngest.EarlyIdsOverwrite`). A transport holds all its identifiers exactly when
  every early one is in the last early event or comes again after the summary
  (`TransportHasItsIds`).
- A transport whose provider response ID is its own inference ID is entered twice in the
  identifier index, counted twice and listed twice
  (`CorrelationCandidates.OwnIdCountsTwice`), so an anchor that names it is never resolved: a
  failed request becomes a retry chain of one transport with itself
  (`CorrelationDerive.OwnIdIsNeverResolved`). An anchor is resolved exactly when the scan
  finds one transport and that one is not entered twice (`ResolvedMeansUnique`).
- A TTL can be effective and rejected at once: when the document also has a top-level
  section whose name is the setting's dotted name, that section is entered in the rejected
  map under the same key (`RemoteConfig.TtlCanLandTwice`, exact condition in
  `TtlLandsOnce`).
- A remote list of 1,024 redaction fields is accepted, but with the headers that are always
  redacted it exceeds what every later run accepts
  (`RemoteConfig.AcceptedFieldsCanBlockRuns`, exact condition in `MergeThenApply`).
- `append` does not look at the record limit that verification enforces: an appended log
  verifies exactly below the limit (`Audit.AppendVerifiesBelowLimit`), there is a verified log
  of exactly the limit, and what `append` leaves of it is rejected
  (`AuditLimits.FullLogIsBroken`).

## Model

| member | source | states |
|---|---|---|
| `CollectorProtocol.HistoryInvariant` | src/control.rs:1254-1321 | every state of every legal history satisfies the protocol invariant relating program point, memory copy, disk copy, calls made and audit log |
| `CollectorProtocol.StepKeepsInvariant` | src/control.rs:684-730 | every single step, a crash or a failing call included, keeps that invariant |
| `CollectorProtocol.InflightLineage` | src/control.rs:1254-1321 | an in-flight request on disk is never overwritten and loses no decision; it disappears only after the platform answered the report of its one outcome and that was audited, and never returns |
| `CollectorProtocol.UploadsStayPinned` | src/control.rs:1395-1452 | once an operation is on disk, every later upload call for that in-flight request carries its recording ID and boundary, however runs grow or finish |
| `CollectorProtocol.ReportsAreDurable` | src/control.rs:1198-1321 | a terminal outcome is reported only while exactly that outcome is on disk |
| `CollectorProtocol.DoneMeansUploaded` | src/control.rs:1395-1491 | a flush or seal is reported done only after an answered upload of that in-flight request: at its pinned boundary, which the outcome then names, or of the finished run |
| `CollectorProtocol.EffectsAgree` | src/control.rs:1323-1349 | all terminal reports of one in-flight request give one outcome, all its active uploads one recording and boundary, and the audit log has at most one request record per request ID and status |
| `CollectorProtocol.MemoryIsNotOverwritten` | src/control.rs:580-590 | short of a crash the copy in memory is replaced only by its own continuation, or dropped once its report was answered and audited |
| `CollectorDaemons.CollectorDaemon.constructor` | src/control.rs:621-682 | a daemon without a process is the initial state of a legal history |
| `CollectorDaemons.TraceIsLegal` | src/control.rs:559-603 | what an execution of the object goes through is a legal history of the protocol |
| `CollectorDaemons.CollectorDaemon.PersistState` | src/control.rs:1085-1088 | an invalid state is never written; a write replaces the whole disk copy or leaves it |
| `CollectorDaemons.CollectorDaemon.EnsureRegistered` | src/control.rs:732-769 | registering never moves the configuration version back and changes nothing else; the new version is on disk or the cycle ends |
| `CollectorDaemons.CollectorDaemon.PrepareActiveRequestOperation` | src/control.rs:1209-1252 | on success the operation with the boundary the writer has at that moment is on disk before any upload; another active segment is refused |
| `CollectorDaemons.CollectorDaemon.UploadPinned` | src/control.rs:1198-1207 | an active upload is called with the operation stored in memory and on disk; there is an outcome exactly when it was answered, and it names that boundary |
| `CollectorDaemons.CollectorDaemon.ExecutePause` | src/control.rs:1356-1365 | pause and resume are durable before their outcome exists |
| `CollectorDaemons.CollectorDaemon.ExecuteConfig` | src/control.rs:1366-1394 | a configuration request is done only when the daemon holds the requested version |
| `CollectorDaemons.CollectorDaemon.ExecuteUpload` | src/control.rs:1395-1491 | the flush and seal branch follows the protocol on every path |
| `CollectorDaemons.CollectorDaemon.ExecuteRequest` | src/control.rs:1351-1603 | every request kind ends in a decided outcome or in the error path |
| `CollectorDaemons.CollectorDaemon.AuditRequestOutcome` | src/control.rs:1323-1349 | on success the record is in the log; an existing record is never written again |
| `CollectorDaemons.CollectorDaemon.Begin` | src/control.rs:1285-1299 | a request is acknowledged with nothing in flight and, once that was answered, is on disk before it is executed |
| `CollectorDaemons.CollectorDaemon.Settle` | src/control.rs:1304-1320 | on success the report of the outcome was answered and the outcome audited before the request was cleared in memory and on disk |
| `CollectorDaemons.CollectorDaemon.ResumeInflight` | src/control.rs:1254-1283 | on success what was in flight has an answered report and an audit record, and nothing is left in flight in memory or on disk |
| `CollectorDaemons.CollectorDaemon.ProcessRequest` | src/control.rs:1285-1321 | an invalid request sends nothing and changes nothing; on success its acknowledgement and its report were answered and it is audited, and nothing is left in flight |
| `CollectorDaemons.CollectorDaemon.Cycle` | src/control.rs:684-730 | after a successful cycle every polled request has an answered acknowledgement, an answered report and an audit record; too many requests, any failure or a death before any call stop it |
| `CollectorDaemons.CollectorDaemon.RecordFailure` | src/control.rs:580-590 | after an error memory is kept and written out, or the process ends with the disk untouched |
| `CollectorDaemons.CollectorDaemon.RunCollector` | src/control.rs:559-603 | over any cycles, failures, restarts and deaths before any call: one outcome reported and one boundary uploaded per in-flight request, one audit record per outcome, a valid state on disk |
| `Audit.VerifyLockedFileMatching` | src/audit.rs:207-294 | the loop gives the record count, the last record and the match flag of the chain the whole file spells, or the first thing wrong with it |
| `Audit.VerifiedIsLinked` | src/audit.rs:207-336 | in a verified log record k has number k, names the hash of record k-1, carries its own hash and passes validation; there are at most ten million |
| `Audit.OneHashOneHistory` | src/audit.rs:296-303 | two linked records with one hash stand at one place after the same records, or the hash collides |
| `Audit.LastHashFixesLog` | src/audit.rs:207-303 | two verified logs with the same last hash are equal record by record, or the hash collides on two of their records |
| `Audit.AppendVerifiesBelowLimit` | src/audit.rs:51-102 | an appended record leaves a verified log one record longer exactly while the log is below the record limit; at the limit verification fails |
| `Audit.TornAppendIsRejected` | src/audit.rs:217-228 | a write cut short is always rejected, never read as a shorter or longer log |
| `Audit.FailedAppendVerifies` | src/audit.rs:51-102 | after a failed write verification finds the old log, an incomplete one, or the record in full, by how many bytes got there |
| `Audit.AuditLog.Append` | src/audit.rs:51-102 | success appends exactly one line for a record that links to the verified chain; a refusal changes nothing; a failed write leaves a prefix of such a line |
| `Audit.HasRequestRecord` | src/audit.rs:124-151 | true exactly when labels are valid and the fully verified chain holds such a record; an error exactly when a label or the chain is bad |
| `Audit.HasRunRecord` | src/audit.rs:156-183 | the same for a run-scoped record |
| `AuditLimits.LogOfLength` | src/audit.rs:51-102 | for every number up to the limit there is a verified log of that many records |
| `AuditLimits.FullLogIsBroken` | src/audit.rs:236-244 | at the limit a record can still be appended, and the log then fails verification for having too many |
| `CollectorAudit.SearchAgrees` | src/audit.rs:124-151 | searching the verified file and looking into the protocol's audit log give one answer |
| `CollectorAudit.OneRecordInFile` | src/control.rs:1323-1349 | after any history a file that spells the protocol's audit log has at most one record per request ID and status |
| `CollectorAudit.AuditRequestOutcome` | src/control.rs:1323-1349 | on the bytes: an existing record leaves the file alone, otherwise one line is appended and the file spells the protocol's next audit log; a refusal changes nothing |
| `RemoteConfig.ParseRedactFields` | src/control.rs:444-460 | the lowercased set of names exactly when all are acceptable and few enough |
| `RemoteConfig.Merge.MergeContentPolicy` | src/control.rs:366-442 | effective content settings and exactly the rejected keys |
| `RemoteConfig.Merge.RejectUnsupportedUpload` | src/control.rs:473-493 | every upload setting but the two fixed values is rejected |
| `RemoteConfig.Merge.MergeRetentionPolicy` | src/control.rs:495-554 | exactly the TTLs that take effect are effective, every other supplied name is rejected |
| `RemoteConfig.MergeRemoteConfig` | src/control.rs:301-364 | accepts exactly within the size, complexity and section limits; the result is the declared merge with exactly the declared rejected keys |
| `RemoteConfig.TtlLandsOnce` | src/control.rs:495-554 | a supplied TTL is effective exactly when in 1..8760 and allowed locally, is effective or rejected, and is both exactly when it takes effect and a top-level section has its dotted name |
| `RemoteConfig.TtlCanLandTwice` | src/control.rs:340-361 | a concrete document whose TTL is both effective and rejected |
| `RemoteConfig.NewRun.ApplyNewRunConfig` | src/control.rs:218-256 | never loosens the policy, even when it fails part way; succeeds exactly when the fields and the narrowed policy are valid |
| `RemoteConfig.MergeThenApply` | src/control.rs:218-442 | merging any document and applying it only tightens, stays within the local byte limit and keeps the always-redacted headers; it fails exactly when the united redactions exceed 1,024 |
| `RemoteConfig.MergedFieldsAreValid` | src/control.rs:411-415 | every merged redaction field passes the next reader's check |
| `RemoteConfig.AcceptedFieldsCanBlockRuns` | src/control.rs:243-246 | 1,024 accepted fields make the configuration inapplicable to every policy |
| `CorrelationIngest.TakePending` | src/correlation.rs:742-756 | the attempt's value first, then the inference's; both keys are gone afterwards |
| `CorrelationIngest.RememberPending` | src/correlation.rs:733-740 | exactly the event's keys now hold the value, all others hold what they held |
| `CorrelationIngest.SlotFollowsItsEvents` | src/correlation.rs:93-155 | whatever else the log interleaves, a transport's slot is what its own events alone make of it |
| `CorrelationIngest.LastValueIsAttached` | src/correlation.rs:93-155 | a transport ends with its last carried value exactly unless a later event after the summary came without one |
| `CorrelationIngest.LaterEventClears` | src/correlation.rs:116-128 | a concrete log on which a status is lost |
| `CorrelationIngest.TransportHasItsLastValues` | src/correlation.rs:93-155 | after ingest the transport of an inference has exactly the status and terminal state its own response events leave |
| `CorrelationIngest.Ingestion.Open` | src/correlation.rs:93-115 | a summary takes what waited for it and is found under its keys |
| `CorrelationIngest.Ingestion.Started` | src/correlation.rs:116-128 | a status goes to the transport it names or waits |
| `CorrelationIngest.TransportHasItsIds` | src/correlation.rs:129-146 | it has exactly what the last early event carried and all that later ones did; every carried identifier is held if and only if every early one is in the last early event or comes again after the summary |
| `CorrelationIngest.GatheredMeans` | src/correlation.rs:129-146 | the closed form of the identifiers waiting for a transport or held by it |
| `CorrelationIngest.EarlyIdsOverwrite` | src/correlation.rs:142-144 | a concrete log on which the first of two early identifiers is lost |
| `CorrelationIngest.MeaningIs` | src/correlation.rs:88-175 | what a log means, part by part: slots, transports, anchors, first scopes, earlier output |
| `CorrelationIngest.Ingestion.ResponseId` | src/correlation.rs:129-146 | an identifier joins those of the transport it names, or waits and replaces what waited |
| `CorrelationIngest.Ingestion.Finished` | src/correlation.rs:147-155 | a terminal state goes to the transport it names or waits |
| `CorrelationIngest.Ingestion.Ingest` | src/correlation.rs:88-175 | one event more, and the state is what the longer log means |
| `CorrelationIngest.IngestLog` | src/correlation.rs:84-213 | the state is what the part read means; reading stops short exactly when an index outgrows its limit |
| `CorrelationCandidates.IndexByTime` | src/correlation.rs:223-225 | every transport once, by time and then sequence |
| `CorrelationCandidates.IndexByExactId` | src/correlation.rs:226-238 | every identifier lists its transports in log order, once per way it names them |
| `CorrelationCandidates.PartitionPoint` | src/correlation.rs:332-334 | binary search splits the time index at the bound |
| `CorrelationCandidates.CandidatesForAnchor` | src/correlation.rs:312-375 | agrees with a plain scan: all allowed exact matches if any, else all allowed compatible transports in the window; the count is the hits plus the doubled ones, at most 1,024 are listed, no hit before one met later, in log order, truncated exactly when there are more |
| `CorrelationCandidates.AllAreListed` | src/correlation.rs:358-374 | a selection that is not truncated lists every hit once and every doubled one twice |
| `CorrelationCandidates.ExactEntries` | src/correlation.rs:335-357 | the entries under an identifier are the transports it names, and those it names twice once more |
| `CorrelationCandidates.OwnIdCountsTwice` | src/correlation.rs:227-237 | a transport that lists its own ID, alone in the log, gives the selection of two candidates that are both it |
| `CorrelationDerive.DecisionIsRightful` | src/correlation.rs:246-275 | what an anchor claims is unclaimed, or the claim is justified; the decision follows the plain scan |
| `CorrelationDerive.PreRequestClaimsAreDisjoint` | src/correlation.rs:239-276 | over a whole run distinct pre-request anchors never claim the same inference |
| `CorrelationDerive.ClaimingAgainIsJustified` | src/correlation.rs:377-429 | whoever claims a claimed inference is a completion that names a transport of it exactly or shares logical scope with a pre-request anchor that claimed it |
| `CorrelationDerive.ResolvedMeansUnique` | src/correlation.rs:255-274 | an anchor is resolved if and only if the plain scan finds one transport and that one is not doubled, and it is that one; an unresolved anchor reports the hits plus the doubled ones, truncated exactly above 1,024 |
| `CorrelationDerive.ChainClaimsAllHits` | src/correlation.rs:262-270 | a retry chain claims exactly the inferences of the transports the plain scan finds; a chain of one transport is a doubled one |
| `CorrelationDerive.OwnIdIsNeverResolved` | src/correlation.rs:255-274 | the decision for an anchor that names one transport listing its own ID: a chain of it with itself when that failed retriably, unresolved between two otherwise |
| `CorrelationDerive.OneChainEach` | src/correlation.rs:586-624 | no inference is listed by two retry chains |
| `CorrelationDerive.DerivedChainsApart` | src/correlation.rs:239-297 | among all events of a run no inference is listed by two retry chains, and every chain lists at least two |
| `CorrelationDerive.DerivedChainCountsOnce` | src/inspect.rs:792-818 | in the summary of a log with all events of a run appended, those of unclaimed transports included, the transports of a chain are exactly one logical inference |
| `CorrelationDerive.Derivation.ClaimAll` | src/correlation.rs:265-268 | a chain's members are matched and remembered under the anchor's scope |
| `CorrelationDerive.Derivation.MatchAnchors` | src/correlation.rs:239-276 | every anchor is served once, and the run stays lawful |
| `CorrelationDerive.Derivation.ReportLeftovers` | src/correlation.rs:277-297 | one event per transport nobody claimed, in log order |
| `CorrelationDerive.Derive` | src/correlation.rs:70-299 | a run is skipped when the log has correlation events, otherwise it appends a lawful run and its leftovers and reports their counts |
| `CorrelationDerive.EveryOneIsAccounted` | src/correlation.rs:246-298 | one event per anchor plus one per unclaimed transport; resolved plus unresolved is that number; unmatched never exceeds unresolved |
| `CorrelationDerive.DerivingAgainAppendsNothing` | src/correlation.rs:214-219 | deriving again on the result appends nothing |
| `Summary.EventSummary.UpdateAttempts` | src/inspect.rs:689-738 | attempts, WebSocket attempts and protocol counts grow by what the event means |
| `Summary.EventSummary.UpdatePayloadCoverage` | src/inspect.rs:1065-1174 | the four payload sets grow by exactly the event's verdicts |
| `Summary.EventSummary.UpdateSurfaceCoverage` | src/inspect.rs:943-995 | the egress, bypass and QUIC sets grow by exactly the observed connection |
| `Summary.EventSummary.UpdateCounts` | src/inspect.rs:1176-1231 | attempt, finished, completed, incomplete and token counters and the unresolved ones are the saturated totals of the log so far |
| `Summary.EventSummary.UpdateTally` | src/inspect.rs:1176-1231 | the event count and the error count, an error status and an error end each counting, are the saturated totals |
| `Summary.AttemptsAddUp` | src/inspect.rs:1214-1227 | finished attempts are the completed ones plus the incomplete ones |
| `Summary.ReferencesMean` | src/inspect.rs:670-677 | the blob references are those of the log, each with the largest size given for it |
| `Summary.EventSummary.UpdateInferences` | src/inspect.rs:689-752 | logical inferences, first models and retry aliases follow the log |
| `Summary.EventSummary.Fold` | src/inspect.rs:524-826 | one event more, and every field moves by that event's contribution |
| `Summary.MeaningGrows` | src/inspect.rs:524-818 | what a log means as a whole grows by exactly each event's contribution |
| `Summary.SummarizeEvents` | src/inspect.rs:515-846 | the pass succeeds exactly when every index is within its limit at every event, and then holds what the whole log means |
| `Summary.ProtocolsMean` | src/inspect.rs:700-738 | each protocol key maps to the number of events that contribute it |
| `Summary.EgressClassesMean` | src/inspect.rs:951-980 | each traffic class maps to exactly the connections observed with it |
| `Summary.CoverageSteps` | src/inspect.rs:524-826 | the coverage a log means grows by each event's contribution |
| `Summary.HooksChangeNoEvidence` | src/inspect.rs:524-818 | taking any hook events out of a log changes no attempt, completion, incompletion or token count, protocol count, payload set, egress, bypass or QUIC set, nor the unresolved correlations |
| `Summary.CompletenessFlags` | src/inspect.rs:244-256 | the flags are what the manifest states of the whole log |
| `Summary.IncompleteIsForever` | src/inspect.rs:1065-1174 | once an attempt is marked incomplete the flag is false for every continuation of the log |
| `Summary.CountModels` | src/inspect.rs:820-844 | the inference count is the number of distinct canonical inferences; each model counts the canonical inferences whose last model in key order it is, and the counts sum to the number of those that have a model |
| `Summary.LastModelStands` | src/inspect.rs:831-841 | a canonical inference has the model of the last inference in key order that stands for it |
| `Summary.AliasFollowsChain` | src/inspect.rs:792-811 | an inference listed under one canonical name only is aliased to it |
| `Summary.ChainCountsOnce` | src/inspect.rs:792-826 | the members of a chain no other chain claims are at most one canonical inference |
| `Blobs.NamesRoundTrip` | src/blob_keys.rs:234-240 | printing and parsing a blob file name gives back class and hash |
| `Blobs.NamesAreCanonical` | src/blob_keys.rs:328-344 | a name that parses is the one that prints |
| `Blobs.IdentitiesAreUnique` | src/blob_keys.rs:355-362 | identities determine class and hash |
| `Blobs.IdentityShowsClass` | src/blob_keys.rs:364-370 | an identity shows its class |
| `Blobs.AddEntry` | src/inspect.rs:1289-1400 | one directory entry more: recorded under its verdict and in the totals, refused exactly when it is unacceptable or the sizes overflow |
| `Blobs.BlobInventory` | src/inspect.rs:1271-1408 | succeeds exactly when the directory is small enough, every entry acceptable and the sizes fit 64 bits; then it holds exactly the recognised files, each under its one verdict, with the file count and the storage total |
| `Blobs.ClassifyBlobs` | src/inspect.rs:323-373 | every reference gets the sentence the inventory implies |
| `Blobs.InspectBlobs` | src/inspect.rs:323-373 | with verification on every reference has exactly one fate, and no completeness flag survives a reference that is not intact |
| `Blobs.FatesAreExclusive` | src/inspect.rs:323-373 | exactly one of intact, missing, corrupt, erased, pending; intact exactly when a sound file of that size is present |
| `JsonScan.ValidateJsonComplexityWithLimits` | src/input.rs:25-70 | the loop accepts exactly what the automaton accepts |
| `JsonScan.ValidateJsonComplexity` | src/input.rs:8-13 | the payload limits |
| `JsonScan.ValidateStoredJsonComplexity` | src/input.rs:15-23 | the stored limits |
| `JsonScan.AcceptsExactlyWithinLimits` | src/input.rs:25-70 | every printed JSON tree is accepted exactly when its nesting depth and its containers, commas and colons are within the limits (sections 4, 5 and 7 of RFC 8259) |
| `JsonScan.StoredEnvelopeIsReadable` | src/input.rs:3-23 | an accepted payload wrapped in at most 16 more levels and 4,096 more tokens passes the stored limits |
| `Comments.StripJsonComments` | src/adapter.rs:473-544 | the in-place loop computes what the lexer says |
| `Comments.TakeTurn` | src/adapter.rs:484-537 | one round writes what the state makes of the bytes at hand and leaves the rest alone |
| `Comments.StripBlanksExactlyComments` | src/adapter.rs:473-544 | success keeps the length and every byte outside comments, and blanks exactly the comment bytes that are not line ends |
| `Comments.StripFailsExactlyOnOpenBlock` | src/adapter.rs:539-543 | failure exactly when the input ends inside a block comment |
| `Comments.StrippedIsCommentFree` | src/adapter.rs:473-544 | no comment starts outside strings in the result |
| `Comments.StripIsIdempotent` | src/adapter.rs:473-544 | stripping twice is stripping once |
| `Comments.TokensAreLossless` | src/adapter.rs:473-544 | the lexer's tokens spell the input |
| `TlsMarkers.FindTlsMarkers` | src/discovery.rs:455-490 | adds exactly the markers contained in the bytes |
| `TlsMarkers.ChunkScanned` | src/discovery.rs:416-424 | scanning the kept tail and a chunk finds exactly the markers of the longer stream, and the new tail is its last 64 bytes |
| `TlsMarkers.TlsMarkerScanner.Update` | src/discovery.rs:416-424 | after every chunk the scanner holds the markers and the tail of the whole stream |
| `TlsMarkers.TlsMarkerScanner.Finish` | src/discovery.rs:426-453 | a surface is reported exactly when all its evidence was found |
| `TlsMarkers.ScanChunks` | src/discovery.rs:357-369 | for every way of cutting a file into chunks the markers are those of the whole lowercased file |
| `SealedContexts.EventAadV2` | src/crypto.rs:469-481 | the bytes name the event context: they read back as run ID and sequence |
| `SealedContexts.EventBlockAadV1` | src/crypto.rs:483-506 | the bytes name the block's context: they read back as run ID, first sequence, count, size and digest |
| `SealedContexts.LengthPrefixedAad` | src/crypto.rs:508-514 | the bytes name the wrapped key or the manifest tag, by their domain |
| `SealedContexts.AadDecodes` | src/crypto.rs:26-37 | every context can be read back from its associated data |
| `SealedContexts.AadIsInjective` | src/crypto.rs:469-514 | equal associated data means equal context, within and across domains |
| `SealedContexts.OpensExactlyInItsContext` | src/crypto.rs:269-337 | what was sealed for a context opens for exactly that context and returns the plaintext |
| `SealedContexts.EventOpensExactlyInItsContext` | src/crypto.rs:144-255 | a stored event opens exactly when version, run ID and sequence are those it was sealed with and its plaintext agrees |
| `Egress.GroupSelectors` | src/egress.rs:185-209 | succeeds exactly when no selector has two classes; each selector gets its class and ascending rule numbers |
| `Egress.ResolveOne` | src/egress.rs:287-324 | succeeds exactly when the lookup answers; keeps at most 64 distinct addresses and says whether some were dropped |
| `Egress.KeptIsAnswered` | src/egress.rs:302-308 | what is kept was answered; something is dropped only at the limit |
| `Egress.CollectResolutions` | src/egress.rs:274-285 | in whatever order lookups finish, one rule per selector, or an error exactly when some lookup fails |
| `Egress.ClassifyEndpoints` | src/egress.rs:226-270 | the nested loops compute the fold over all claims in order |
| `Egress.ClassifiesExactly` | src/egress.rs:226-270 | merging succeeds exactly when the claims are compatible, and gives the map they describe |
| `Egress.Resolve` | src/egress.rs:168-272 | fails on too many rules, conflicting selectors, a failed lookup or a timeout; otherwise has the one outcome of the rules |
| `Egress.OrderDoesNotMatter` | src/egress.rs:210-224 | one result, errors included, for every completion order once all lookups answer |
| `Egress.EachNumberOnce` | src/egress.rs:185-224 | each rule number is in exactly one resolved rule |
| `Egress.ResolutionIsExact` | src/egress.rs:226-272 | each address has the class of every rule that reaches it and the ascending list of exactly their numbers; none is a model endpoint |
| `Egress.ResolvesExactlyWhenCompatible` | src/egress.rs:226-272 | success exactly when no rule reaches a model endpoint, no address is reached by two classes and at most 4,096 addresses are reached |

## Left out

- Platform HTTP client, session tokens, heartbeat contents, the Unix-socket collector: plumbing around the modelled calls.
- Upload, segment rolling, retention and local deletion: abstract steps with arbitrary answers; only that they write no request records of their own matters.
- File modes, symlinks, locks and syncing: only "atomic replacement of the state file" and "one daemon" are kept.
- CollectorDaemons.CollectorDaemon.Housekeeping: one step for all background work of a cycle, because its parts touch nothing the request protocol reads.
- JSON parsing and printing: records, configurations and events arrive as values; the audit log keeps its bytes but takes its codec as a parameter, required to read back only the record just appended.
- Byte lengths of non-ASCII labels and header names: lengths are counted in characters.
- The order of log events: anchors and transports are taken in log order, which the two sorts by sequence number do not change.
- Anchor labels: whether an event is an anchor, and of which kind, is part of the event instead of a text comparison.
- Confidence values and evidence texts of correlation events: they decide nothing.
- Summary.CountModels: takes the key order of the map of models as an argument, because string order itself is not modelled.
- Summary.EventSummary.UpdateSurfaceCoverage: omits TLS surfaces, network-scan gaps and process counters, because they are further folds of the same kind with nothing depending on them.
- Summary.EventSummary.Fold: omits sources, task identifiers and the cgroup and namespace counters, for the same reason.
- Summary.SummarizeEvents: omits the limits on those indexes.
- Texts of protocol names and of missing-connection identifiers: separate constructors, so a name that imitates another field's text is not modelled.
- Egress.ResolveOne: an IP literal is a name that answers with itself.
- Key files, key derivation and the manifest's own authentication call: only their associated data is modelled.
- Export, migration, metadata, doctor, cgroup, proxy and command-line modules: mostly one-branch checks, file copying or environment probing.
