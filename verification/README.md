# RFP ingestion, review and login: a verified model

This Dafny project models the parts of the application that other parts rely on being right, and
proves what they promise:

* **Ingestion of one document** (`IngestionState`, `QuarantineUpload`, `MalwareScan`, `ScanRetries`,
  `CleanPromotion`, `DocumentParsing`): the row and the stores as the code changes them, each method
  proved against a specification. `Pipeline` puts the same pieces into a step system in which workers
  overlap and crash between any two commits or file operations and, where a theorem says so, stored
  files are changed from outside. `PipelineHistory`, `PipelineCounters`, `PipelineChain` and
  `PromotionSafety` prove what every run keeps; `PipelineRejections` says which runs end rejected and
  that they stay so; `ParseOwnership` says exactly which documents can still leave PARSING;
  `ParseRetries` follows failed parse attempts; `PromotionRefinement` and `PromotionAttempts` prove that the attempts nobody interferes
  with are exactly the outcomes of the one-piece call. `PipelineRuns` composes runs and `PipelineReach`
  builds the runs that show the theorems are about something.
* **Candidate extraction and human review** (`SnapshotEncoding`, `CandidateFilter`, `ReviewDatabase`,
  `CandidateReview`): the transactions on candidates, tasks, requirements and runs. `ReviewHistory`,
  `ReviewRuns` and `ReviewGuarantees` interleave extraction calls, reviews and changes to users and
  pages freely; `ReviewSequential` proves what holds without the index when calls do not overlap;
  `ReviewReach` builds a history that ends with a requirement.
* **Timed state** (`LoginThrottling`, `ThrottleBounds`, `Sessions`, `SessionLifetimes`,
  `SessionActivity`): login counters and server-side sessions over any sequence of requests with a
  monotone clock. `SessionActivity` ties the times in a record to the requests themselves.
* **Byte and text algorithms** (`Instream`, `DocxChunking`, `DocxText`, `EvidenceQuotes`, `NearDuplicates`) and the
  one-active-RFP rule (`ActiveRfp`). `PythonText` and `Basics` hold what they share.

Each function a method is proved against has, beside it, a theorem that says what it computes in terms of
its inputs alone. Where a call is refused for the first of several reasons, that theorem lists the hurdles in
their order (`Basics.Hurdle`): the call succeeds if and only if all are cleared, and otherwise gives the code of
the first one missed.

`dafny verify dfyconfig.toml` checks everything.

## Assumptions

* SHA-256 is a function parameter; where a property needs it to be collision free it says so.
  UUIDs and session ids are fresh. Case folding, NFC, text normalization, token sets and the keyed
  digest of an email are parameters too, with the properties they need stated as predicates.
* `with_for_update().first()` takes the row lock and reads the committed row; transactions are atomic
  and serializable. This includes the enqueue-failure handlers, which do not take the lock.
* A stored file does not change from the moment a scan or a parse attempt checks its digest to the end of
  its use there: the scanner reads it again for the daemon and for the inspector, the parser client to
  send it. Outside changes happen between steps. `os.write` writes the whole chunk.
* Scan attempts of one document crash and are redelivered but do not overlap; promotion and parse
  attempts overlap freely.
* A promotion entered from PROMOTING makes no status change, so its first transaction is not
  committed: it keeps the row lock, with its attempt count pending, until its next commit.
* In promotion a transaction that fails to commit, that of CLEAN included, counts as a crash at that
  point.
* Requests on sessions and logins run one at a time. One login reads the clock once for its check and
  once for recording its outcome.
* A page query returns a document's pages in page order; page numbers are unique.

## Where the code differs from its description

* The staged copy describes an idempotent completion when its destination exists. The destination name
  is new in every attempt, so without outside change that branch is never taken
  (`PromotionSafety.DestinationsAreAlwaysNew`).
* A source left behind is described as flagged for cleanup. It is neither removed nor flagged if and only
  if the last attempt that owed the one or the other crashed, after the CLEAN commit or after a failed
  unlink (`PromotionSafety.LeftOverExactlyWhenAbandoned`); any upload can come to that, either way
  (`PipelineReach.AnyUploadCanBeLeftOver`), and nothing ever removes it (`PromotionSafety.LeftoversStay`).
* A failure of promotion at any step is described as ending in PROMOTION_FAILED. A promotion that fails
  leaves the document in PROMOTING if and only if the storage root cannot be resolved, or the copy fails and
  the look for its partial file raises too, as it does when the storage directory may not be searched
  (`CleanPromotion.PromotionIsAllOrNothing`).
* An upload that fails is described as always cleaned up. Its partial file stays if and only if it was
  created and its removal fails too (`QuarantineUpload.UploadsAreAllOrNothing`).
* Search results are described as trimmed to the evidence bounds. Cutting at 2000 characters can leave
  trailing white space, and the validator trims again (`EvidenceQuotes.OfferedPassagesValidate` gives
  the exact condition, `EvidenceQuotes.AnOfferCanBeRefused` an input).
* The extraction service rejects a duplicate completed run in its first phase only; that a snapshot is
  completed at most once rests on the PostgreSQL index (`ReviewGuarantees.OverlappingRunsBothComplete`).
* A duplicate candidate is compared with every earlier unit that reached the comparison, one later
  rejected for control characters included (`CandidateFilter.OneSurvivorPerKey`).
* A document in PARSING can leave it if and only if a live attempt has the token it stores
  (`ParseOwnership.LeavesParsingExactlyWhenOwned`); it is stranded if and only if its owning attempt
  ended unrecorded (`ParseOwnership.StrandedExactlyWhenItsOwnerRecordedNothing`): it crashed, or a write of
  its own failed, after which its database session, never rolled back, takes no record of the failure either.
  Any upload that is parsed can come to that, either way (`PipelineReach.AnyUploadCanBeStranded`).
* A login on a session that is already logged in keeps the id and its login time
  (`SessionLifetimes.RotatedExactlyAtLogin`). The session-id pattern admits a final newline; such an id
  is never issued.

## Model

| member | source | states |
|---|---|---|
| `IngestionState.DocumentRow.Transition` | app/services/ingestion_state.py:115-184 | The new row is exactly what the transition table allows, with one audit row; a same-state call changes nothing, an illegal one fails and changes nothing |
| `IngestionState.PermittedExactlyWhen` | app/services/ingestion_state.py:79-108 | The edges are those between one stage and the next, between a stage and the state it waits in after a failure, into the state a stage ends in, and the one for legacy rows |
| `IngestionState.RejectedExactlyWhenStuck` | app/services/ingestion_state.py:79-108 | The rejected states are exactly those other than COMPLETED that nothing leads out of |
| `IngestionState.MovesExactlyWhen` | app/services/ingestion_state.py:115-184 | Every column after a change of status, the reason and summary that stay when none is given, and the audit row, without naming the specification |
| `IngestionState.NoStageIsSkipped` | app/services/ingestion_state.py:79-108 | Whatever status a document has, its audit trail entered every stage below it, in order |
| `IngestionState.ClearedAtMostOnce` | app/services/ingestion_state.py:96-107 | CLEAN is entered at most once and COMPLETED at most once in a document's life, retries included |
| `IngestionState.TerminalEventIsLast` | app/services/ingestion_state.py:93-106 | An event that enters a rejected state or COMPLETED is the last of the trail |
| `IngestionState.TrailPrefix` | app/services/ingestion_state.py:115-184 | Every prefix of a trail is itself a lawful trail of the status reached by then |
| `MalwareScan.RunScan` | app/services/malware_scan.py:185-290 | One attempt: counts itself first, then ends in exactly the status the checks call for, and hands a passed document on; an exception before the decision fails the attempt, one after it leaves the decision standing, and both escape |
| `MalwareScan.AScanEndsAsObserved` | app/services/malware_scan.py:185-290 | From what is observed alone: a SCANNING document ends REJECTED_MALWARE if and only if its digest matches, nothing raises before the decision, the signatures are known and fresh and the daemon finds something; REJECTED_CONTENT_POLICY if and only if it is clean and the inspection objects, with its code; SCAN_FAILED exactly otherwise short of a pass, with the code of the first check missed; only a pass is handed on |
| `MalwareScan.PassOnTheRow` | app/services/malware_scan.py:459-571 | What a pass writes: the attempt, the digest that was scanned, the two results and one audit row |
| `PipelineRejections.RejectedExactlyWhenFound` | app/services/malware_scan.py:491-506 | In every run a document is in REJECTED_MALWARE if and only if some step ended a scan on such a finding, and in REJECTED_CONTENT_POLICY if and only if one ended on such a violation |
| `PipelineRejections.RejectionIsFinal` | app/services/ingestion_state.py:93-95 | From a rejected state on no step of any run changes status or trail |
| `MalwareScan.RunScanBody` | app/services/malware_scan.py:459-515 | After the integrity check: freshness before scan result before content policy, with the recorded codes |
| `MalwareScan.RunContentPolicy` | app/services/malware_scan.py:517-591 | PDF inspection failures are retried, DOCX ones rejected, violations rejected with their code; a pass is committed and then handed on |
| `MalwareScan.PrepareScanAttempt` | app/services/malware_scan.py:293-367 | Re-arms SCAN_FAILED only below the cap and refuses at it, leaving the row alone |
| `ScanRetries.RunScanSync` | app/services/malware_scan.py:370-414 | The inline recursion terminates and computes the retry loop, with the promotion that follows a pass |
| `ScanRetries.EnqueueScanRetry` | app/core/queue.py:208-265 | Without a queue the retry runs at once, on the measure cap minus count; with one it is scheduled after its backoff and changes nothing; a refusal is raised without an event loop and only logged on one |
| `ScanRetries.DelaysGrowUpToTheCeiling` | app/core/queue.py:208-225 | The first delay is the base, each next one twice the last, both cut at the ceiling; with jitter a delay is at least half the first and stays below one and a half ceilings |
| `ScanRetries.RetriesUntilTheCap` | app/services/malware_scan.py:370-414 | Started below the cap, a synchronous scan ends in SCAN_FAILED below the cap only if an attempt raised and never passes the cap; it raises exactly when its last attempt or the inline promotion does; without a queue a document is not left waiting for promotion |
| `ScanRetries.TheLastAttemptDecides` | app/services/malware_scan.py:391-414 | The synchronous scan leaves the row and both stores as its last attempt and the promotion after it do |
| `ScanRetries.StopsAtTheFirstDecision` | app/services/malware_scan.py:402-412 | Every attempt before the last failed without raising: the loop stops at the first decisive one |
| `CleanPromotion.CleanStore.PerformStagedCopy` | app/services/clean_storage_promotion.py:119-255 | The chunk loop equals the staged copy: what is written is what was hashed, a read or write that fails leaves the chunks before it, and every modelled fault has its code |
| `CleanPromotion.CleanStore.CleanupPartial` | app/services/clean_storage_promotion.py:258-265 | Removes the partial file and nothing else, or fails to without telling; it raises, and leaves everything, if and only if the look for the file fails |
| `CleanPromotion.StagedCopyIsSafe` | app/services/clean_storage_promotion.py:119-255 | A final file appears only with the recorded size and digest, an existing one is never rewritten, no other name is touched |
| `CleanPromotion.StagedCopySucceedsExactlyWhen` | app/services/clean_storage_promotion.py:119-255 | The copy succeeds if and only if the destination already matches, or the source matches, no leftover partial blocks it and no call on the way fails |
| `CleanPromotion.CopiesExactlyWhen` | app/services/clean_storage_promotion.py:119-255 | The copy as a row of hurdles: the code it fails with is that of the first one missed |
| `CleanPromotion.RefusedExactlyWhen` | app/services/clean_storage_promotion.py:268-338 | A promotion is refused for a foreign tenant, a status outside the three, or a missing digest or size, in this order, and then writes nothing |
| `CleanPromotion.WhatAnAttemptLeaves` | app/services/clean_storage_promotion.py:340-463 | Every column, audit row and the source after an admitted call: CLEAN under the stored identifier or the new one, with the attempt counted and the flag set exactly if the source could not be removed; PROMOTION_FAILED with the code; or still PROMOTING |
| `CleanPromotion.PromoteDocument` | app/services/clean_storage_promotion.py:268-463 | The whole call against its specification: row, both stores and result, for every admission error and every modelled fault |
| `CleanPromotion.PromotionIsAllOrNothing` | app/services/clean_storage_promotion.py:340-463 | Afterwards the document is CLEAN under a verified file with the source gone or flagged, or PROMOTION_FAILED with the source untouched; it is left in PROMOTING, with a raw exception, if and only if the storage root cannot be resolved, or the copy fails and the look for its partial file raises |
| `PromotionRefinement.AnUninterruptedAttemptIsPromote` | app/services/clean_storage_promotion.py:268-463 | The step-by-step attempt of the concurrent model, run alone, reaches exactly the outcome of the one-piece call, whatever faults occur |
| `PromotionAttempts.EveryFinishedAttemptIsPromote` | app/services/clean_storage_promotion.py:268-463 | Conversely, every attempt that nobody interferes with and that ends without crashing, by a raised exception too, leaves row, stores and log as the one-piece call does under some identifier and some faults |
| `PromotionSafety.NoBytesAreLost` | app/services/clean_storage_promotion.py:268-463 | In every reachable state of overlapping, crashing attempts the row's path leads to the uploaded bytes |
| `PromotionSafety.SourceOutlivesPromotion` | app/services/clean_storage_promotion.py:409-463 | If the source is gone the document is CLEAN or later under an existing file of the recorded size and digest; while promotion may be retried the source is there |
| `PromotionSafety.DestinationsAreAlwaysNew` | app/services/clean_storage_promotion.py:136-157 | An attempt about to open its destination always finds both names free: the idempotent-completion branch is never taken |
| `PromotionSafety.LeftOverExactlyWhenAbandoned` | app/services/clean_storage_promotion.py:424-463 | In every run a source outlives promotion, unflagged and owed nothing, if and only if the last attempt that owed its removal or its flag crashed; crashes anywhere else leave nothing over |
| `PromotionSafety.AStepLeavesOverExactlyWhen` | app/services/clean_storage_promotion.py:440-463 | The same for one step from any safe state |
| `PipelineReach.AnyUploadCanBeLeftOver` | app/services/clean_storage_promotion.py:424-463 | From upload to that state, for every upload, with a crash before the unlink or after a failed one |
| `PromotionSafety.CleanupSafe` | app/services/clean_storage_promotion.py:258-265 | Cleaning up after one attempt never removes what another attempt is writing |
| `PipelineChain.DigestIsNeverReassigned` | app/services/document_ingestion.py:74-105 | Digest and size on the row are those of the upload in every reachable state, tampering with files included |
| `PipelineChain.CompletedMeansChecked` | app/services/parser_client.py:66-92 | A COMPLETED document passed every stage in order and was found clean; the bytes scanned, promoted and parsed all hash to the upload's digest although stored files may change between steps |
| `PipelineChain.CompletedMeansTheSameBytes` | app/services/malware_scan.py:151-172 | With a collision-free hash the three stages worked on the uploaded bytes |
| `PipelineCounters.ScanAttemptsAreBounded` | app/services/malware_scan.py:203-217 | Over crashes and redelivery, SCAN_FAILED to SCANNING is taken at most cap - 1 times and the count is at most the cap plus crashed attempts |
| `PipelineCounters.ParseAttemptsAreBounded` | app/services/document_parsing.py:56-140 | The parse counter equals the entries into PARSING and never passes the cap; a COMPLETED document's pages are, unit for page and numbered 1..n under distinct locators, what the service answered to the attempt whose token the row stores |
| `ParseOwnership.OnlyTheOwnerLeavesParsing` | app/services/document_parsing.py:143-276 | A step that leaves PARSING belongs to the attempt whose token the row stores |
| `ParseOwnership.LeavesParsingExactlyWhenOwned` | app/services/document_parsing.py:143-341 | In every reachable state a document in PARSING can leave it if and only if a live attempt has the token it stores |
| `ParseOwnership.TheOwnerLeavesParsing` | app/services/document_parsing.py:279-341 | Left alone, the owning attempt takes the document out of PARSING in at most three steps |
| `ParseOwnership.StrandedExactlyWhenItsOwnerRecordedNothing` | app/services/document_parsing.py:279-341 | In every run a document is stranded in PARSING if and only if the attempt that owned it ended unrecorded: it crashed, or a write of its own failed and so could not be recorded |
| `PipelineReach.AnyUploadCanBeStranded` | app/services/document_parsing.py:279-341 | From upload to that state, for every upload that is parsed, after any number of recorded failures below the cap, for every acceptable answer, by a crash or by a failed write |
| `PipelineReach.EveryAnswerCanBecomeThePages` | app/services/document_parsing.py:83-235 | Failed attempts are repeated up to the cap: for any n from 1 to the cap every non-empty upload has an untampered run with n - 1 recorded failures that ends COMPLETED at count n with any given acceptable answer as its pages |
| `PipelineReach.CompletedOrStrandedExactlyWhenParsable` | app/services/document_parsing.py:89-112 | COMPLETED can be reached if and only if the upload is not empty and the cap is positive, and so can the stranded state |
| `DocumentParsing.ValidateParserResponse` | app/services/parser_client.py:120-174 | Accepts exactly the responses with the right protocol, within the limits, numbered 1..n with distinct locators; the code names the failed check |
| `DocumentParsing.AcceptableExactlyWhen` | app/services/parser_client.py:120-174 | The same with the protocol, the name and the limits written out |
| `DocumentParsing.PrepareParseAttempt` | app/services/document_parsing.py:56-140 | Takes the attempt exactly when status, cap and recorded digest and size allow, and fixes what the later phases compare |
| `DocumentParsing.PreparesExactlyWhen` | app/services/document_parsing.py:83-140 | An attempt begins if and only if the document is CLEAN or PARSE_FAILED, attempts are left, and a digest and a size that is not zero are recorded; it counts itself, stores its token, enters PARSING and changes nothing else |
| `DocumentParsing.PersistParseResults` | app/services/document_parsing.py:143-235 | Replaces the pages only under the stored token with unchanged source metadata; otherwise fails the attempt or does nothing |
| `DocumentParsing.PersistsExactlyWhen` | app/services/document_parsing.py:143-235 | Nothing happens without the stored token; with it, unchanged metadata gives COMPLETED with one page a unit, field for field, and changed metadata PARSE_FAILED with PARSER_INPUT_CHANGED and the old pages |
| `DocumentParsing.FailParseAttempt` | app/services/document_parsing.py:238-276 | Only the owning attempt can fail the document |
| `DocumentParsing.FailsExactlyWhen` | app/services/document_parsing.py:238-276 | With the stored token the failure is recorded with its code and summary, the pages staying; without it nothing changes |
| `DocumentParsing.CompletedPagesAreTheUnits` | app/services/document_parsing.py:143-235 | On completion page i carries unit i, and the row was PARSING under this attempt's token |
| `SnapshotEncoding.ComputeSnapshot` | app/services/candidate_extraction.py:120-137 | Feeding the hash line by line gives the digest of the whole encoding of the sorted pages |
| `SnapshotEncoding.RowOrderDoesNotMatter` | app/services/candidate_extraction.py:120-137 | With one row for each page number the digest is the same in whatever order the rows come |
| `SnapshotEncoding.DecimalReadsBack` | app/services/candidate_extraction.py:120-137 | A page number is written as the decimal numeral that denotes it |
| `SnapshotEncoding.EncodingDeterminesKeys` | app/services/candidate_extraction.py:120-137 | The encoding is uniquely decodable for separator-free kinds and digests and newline-free locators; locators may hold pipes |
| `SnapshotEncoding.EqualSnapshotsMeanEqualPages` | app/services/candidate_extraction.py:205-257 | Equal snapshot digests mean the same rows in the same order with the same text |
| `SnapshotEncoding.NewlinesInLocatorsCollide` | app/services/candidate_extraction.py:120-137 | Without the newline condition every list of two or more pages collides with a shorter one |
| `SnapshotEncoding.PipesInKindsCollide` | app/services/candidate_extraction.py:120-137 | Without the pipe condition text moves between a kind and a locator unnoticed |
| `CandidateFilter.Filter` | app/services/candidate_extraction.py:699-792 | The loop yields exactly the declaratively accepted units, in order, each with its page slice, digest and one task, and counts every rejection under its code |
| `CandidateFilter.ChosenAreTheAccepted` | app/services/candidate_extraction.py:710-792 | The rows are the accepted positions and only those, in input order |
| `CandidateFilter.NoReasonMeansAccepted` | app/services/candidate_extraction.py:710-755 | A unit is accepted if and only if no check has a reason against it |
| `CandidateFilter.JudgedByItsHurdles` | app/services/candidate_extraction.py:710-755 | A unit is accepted if and only if it clears every check, in order, and the first one missed gives the issue it is counted under |
| `PythonText.CharacterClasses` | app/services/extraction_contract.py:174-189 | Which characters count as white space to trim and which as disallowed controls, by code point |
| `CandidateFilter.WrittenAsItCame` | app/services/candidate_extraction.py:757-792 | Each column of an accepted row: its page slice and the digest of just that, the trimmed text, and the provenance of its page |
| `CandidateFilter.EveryUnitIsAccountedFor` | app/services/candidate_extraction.py:824-833 | Received equals accepted plus the sum of all issue counts |
| `CandidateFilter.OneSurvivorPerKey` | app/services/candidate_extraction.py:739-755 | Of sound units with the same sequence, span and first 100 characters only the first can survive, even if it is then rejected for control characters |
| `CandidateFilter.FilteringTwiceIsFilteringOnce` | app/services/candidate_extraction.py:699-792 | Filtering the survivors drops nothing |
| `CandidateReview.Tables.StartRun` | app/services/candidate_extraction.py:170-303 | Phase A as a transaction: guards in order, then one RUNNING run row bound to the snapshot |
| `ReviewDatabase.StartsExactlyWhen` | app/services/candidate_extraction.py:170-303 | A run starts if and only if the document exists in the caller's organization, is completed, all its page digests hold, its pages are within both limits, and no completed run of it has the snapshot of exactly these pages; otherwise nothing is written and the code is that of the first of these that fails |
| `ReviewSequential.SequentialCallsCompleteOnce` | app/services/candidate_extraction.py:259-281 | With or without the index, if no call on a document begins while another on it is in flight, a snapshot of a document is completed at most once |
| `CandidateReview.Tables.PersistCandidates` | app/services/candidate_extraction.py:623-833 | Phase C as a transaction: guards, filter, superseding, insertion and completion, or nothing but a failed run |
| `ReviewDatabase.FinishesExactlyWhen` | app/services/candidate_extraction.py:623-833 | Phase C commits if and only if every guard holds, in order; a missed one leaves the database alone or marks the run failed with its code and changes nothing else |
| `ReviewRuns.WhatAFinishWrites` | app/services/candidate_extraction.py:556-833 | Every candidate, task and audit row after a commit: the old ones unchanged but for the open proposals of earlier runs, which are superseded with their tasks, and one proposal with one open task for each accepted unit |
| `CandidateReview.Tables.SupersedeStaleCandidates` | app/services/candidate_extraction.py:556-620 | Exactly the open proposals of earlier runs of the document are superseded and their open tasks closed; one audit row if there were any |
| `CandidateReview.Tables.ReviewRequirementCandidate` | app/services/candidate_review.py:260-521 | A review against its specification, roll-back of a late failure included |
| `ReviewDatabase.ReviewsExactlyAs` | app/services/candidate_review.py:260-521 | Every answer of a review from its request and the tables: unsupported decision, refused reviewer, absent candidate, replay or conflict, or the first hurdle of a decision that is missed; what is written in each |
| `ReviewDatabase.WhatADecisionWrites` | app/services/candidate_review.py:400-505 | Each column a decision sets: status, normalized comment, the requester as reviewer, the edited text, the closed task, and for an approval or an edit one requirement with the candidate's provenance |
| `CandidateReview.Tables.RequireReviewer` | app/core/security.py:93-162 | 401, 401, 404, 403 in that order, or the reviewer is let through |
| `ReviewDatabase.BarredExactlyWhen` | app/core/security.py:93-162 | Who may review, as a row of hurdles with their status codes |
| `CandidateReview.Tables.RevalidateSource` | app/services/candidate_review.py:193-257 | Which link of the provenance chain is reported broken |
| `ReviewDatabase.DriftsExactlyWhen` | app/services/candidate_review.py:193-257 | The source drifted if and only if a link from the candidate to its document, page and slice is broken; else the run does not apply unless it is one of the same document and organization |
| `ReviewDatabase.DecidedExactlyWhen` | app/services/candidate_review.py:279-424 | A candidate is decided if and only if an active capable member of its organization decides a proposal whose source still stands, with acceptable texts |
| `ReviewDatabase.OnlyAFreshDecisionWrites` | app/services/candidate_review.py:339-385 | Failed and replayed reviews change no candidate, task or requirement; every call adds at most one audit row |
| `ReviewDatabase.OutsidersLearnNothing` | app/services/candidate_review.py:288-310 | A caller who is not a reviewer gets the same answer whatever candidates exist |
| `ReviewDatabase.ForeignCandidatesLookAbsent` | app/services/candidate_review.py:312-328 | Another tenant's candidate is answered like a missing one |
| `ReviewGuarantees.TablesAgree` | app/services/candidate_review.py:308-505 | Over every interleaving: PROPOSED iff task OPEN, decided iff COMPLETED, SUPERSEDED iff SUPERSEDED; exactly the approved and edited have one requirement, with machine or reviewer text |
| `ReviewGuarantees.DecisionsAreFinal` | app/services/candidate_review.py:339-385 | From any reachable state on, a decision, its task and its requirement never change and machine columns are never rewritten |
| `ReviewGuarantees.OnlyReviewersPromote` | app/services/candidate_review.py:426-440 | A requirement appears only by one review, of a proposal, by an active reviewer of its organization |
| `ReviewGuarantees.ProposalsAreComplete` | app/services/candidate_review.py:339-390 | A proposal always has its task and its completed run and no requirement: REVIEW_TASK_MISSING and the unique violation do not occur |
| `ReviewGuarantees.CommitsExactlyWhenThePagesAreUnchanged` | app/services/candidate_extraction.py:634-689 | Phase C commits if and only if the document is still COMPLETED with intact pages that are, row for row and text for text, those snapshotted in phase A (and the index allows) |
| `ReviewGuarantees.CompletedRunsReadTheirSnapshot` | app/services/candidate_extraction.py:663-689 | In every history a completed run wrote from exactly the pages it snapshotted |
| `ReviewGuarantees.FinishIsAllOrNothing` | app/services/candidate_extraction.py:794-833 | A call in flight writes all its rows or leaves candidates, tasks and requirements alone and its run not completed |
| `ReviewGuarantees.ACompletedRunOwnsTheOpenProposals` | app/services/candidate_extraction.py:569-620 | After a run completes, every open proposal of the document is its own; decided candidates and requirements are untouched |
| `ReviewGuarantees.AtMostOneCompletedRun` | alembic/versions/d1e2f3a4b5c6_add_extraction_runs_requirement_candidates.py:102-116 | With the partial unique index a snapshot of a document is completed at most once |
| `ReviewGuarantees.OverlappingRunsBothComplete` | app/services/candidate_extraction.py:259-281 | Of two overlapping calls over the same pages the second still commits if and only if there is no index |
| `ReviewGuarantees.ASecondCallStarts` | app/services/candidate_extraction.py:259-303 | While the first run is in flight nothing stops a second start over the same pages |
| `ReviewGuarantees.DecisionsRestOnTheExtractedPage` | app/services/candidate_review.py:193-257 | With a collision-free hash, the page a reviewer decides on has the text the extractor quoted |
| `ReviewReach.AnyTextCanBecomeARequirement` | app/services/candidate_review.py:308-505 | In any database without extraction rows, any usable text of a new document becomes a requirement by one run and one approval |
| `LoginThrottling.InMemoryThrottleStore.GetCount` | app/core/sessions/throttling.py:125-135 | Reads the live count and deletes an expired entry |
| `LoginThrottling.InMemoryThrottleStore.Increment` | app/core/sessions/throttling.py:137-148 | Opens a window with count 1 or adds one without moving the expiry |
| `LoginThrottling.Throttle.Check` | app/core/sessions/throttling.py:207-216 | Address, then account with address, then account; only the limits asked are read |
| `LoginThrottling.Throttle.Login` | app/web/routes/auth.py:147-192 | Check first; a failure charges all three counters, a success clears the two account counters only |
| `LoginThrottling.KeysAreDistinct` | app/core/sessions/throttling.py:200-205 | Counters of different kinds never share a key |
| `LoginThrottling.AccountIpKeyIsInjective` | app/core/sessions/throttling.py:195-205 | Different accounts or addresses have different counters |
| `ThrottleBounds.SlidingBound` | app/core/sessions/throttling.py:125-148 | In any half-open interval of one window at most 2 * max - 1 failures of a counter are recorded, for each of the three kinds, counted from its last clearing |
| `ThrottleBounds.TheSlidingBoundIsTight` | app/core/sessions/throttling.py:137-148 | 2 * max - 1 recordable failures do fit in such an interval |
| `ThrottleBounds.RecordableExactlyWhenWithinTheLimit` | app/core/sessions/throttling.py:207-222 | A sequence of failure times of an address can be recorded, each on an account of its own, if and only if no fixed window of it exceeds the limit |
| `ThrottleBounds.NoCounterPassesItsLimit` | app/core/sessions/throttling.py:207-222 | No counter of any kind passes its limit |
| `ThrottleBounds.ABlockEndsWithItsWindow` | app/core/sessions/throttling.py:125-148 | A counter of any of the three kinds shows exactly the failures since its window began, until one window after that window's first failure |
| `ThrottleBounds.ACountHasItsFailure` | app/core/sessions/throttling.py:125-148 | A positive count of any kind is owed to a recorded failure that is less than a window old |
| `ThrottleBounds.RefusedExactlyWhenFull` | app/core/sessions/throttling.py:207-216 | After any logins, a login is refused if and only if one of its three counters has reached its limit within its current window |
| `ThrottleBounds.RefusedForTheFirstFull` | app/core/sessions/throttling.py:207-216 | The refusal names the first full counter, of the address, the account at the address, or the account, and the longest cooldown |
| `ThrottleBounds.BlockedTriesChangeNothing` | app/web/routes/auth.py:161-173 | A refused try changes nothing any later login sees |
| `Sessions.InMemorySessionStore.Get` | app/core/sessions/store.py:201-211 | A partial identity record is deleted and not returned |
| `Sessions.InMemorySessionStore.RevokeAllForUser` | app/core/sessions/store.py:240-248 | Removes exactly the indexed records and the index, and counts those still stored |
| `Sessions.Middleware.Handle` | app/core/sessions/middleware.py:155-275 | One request against its specification: resolve, expire, rotate at login, end at logout, save otherwise |
| `SessionActivity.WhatARequestLeaves` | app/core/sessions/middleware.py:155-275 | The store, the record field by field, the index and the cookie after any request, from the request and the record it found |
| `Sessions.Middleware.ResolveCookie` | app/core/sessions/middleware.py:163-204 | Which session a cookie names, ending an expired one |
| `SessionActivity.FoundExactlyWhen` | app/core/sessions/middleware.py:163-204 | A session is found if and only if the cookie can be an id, its record is whole and both timeouts are kept; otherwise exactly the named record is gone |
| `SessionLifetimes.DeadIdsStayDead` | app/core/sessions/middleware.py:179-270 | An id that does not resolve never resolves again, whatever requests and revocations follow |
| `SessionLifetimes.WhatEndsASession` | app/core/sessions/middleware.py:179-270 | A request removes its id if and only if it was dead, the request logs out, or it logs in |
| `SessionLifetimes.RevokingLeavesNoRecordOfTheUser` | app/core/sessions/store.py:240-248 | In a reachable store revoking a user leaves no record of the user, removes exactly the indexed ones and the index, and touches no other |
| `SessionLifetimes.LoginTimeNeverMoves` | app/core/sessions/middleware.py:105-108 | An id keeps its login and creation time as long as it is stored |
| `SessionLifetimes.ServedOnlyWithinItsLifetime` | app/core/sessions/middleware.py:179-204 | A request is served as a user only within the absolute timeout of the id's login and the idle timeout of its last activity |
| `SessionActivity.TimesAreThoseOfTheRequests` | app/core/sessions/middleware.py:105-275 | In every run a stored record's last activity is the time of the last request that found or made its id, and its anchor the time of the login or visit that began it |
| `SessionActivity.FoundOnlyWhileUsed` | app/core/sessions/middleware.py:179-206 | Hence a request finds a session only within the idle timeout of the last request under it and the absolute timeout of its beginning |
| `SessionActivity.ABusySessionLives` | app/core/sessions/middleware.py:179-275 | Conversely, if the requests under an id follow a login at most the idle timeout apart, none logs out and no revocation of its user comes between, a request within the absolute timeout is served as that user |
| `SessionLifetimes.SavedTtlIsBounded` | app/core/sessions/middleware.py:235-265 | A saved TTL is the idle timeout or the whole seconds left of the absolute lifetime, whichever is less, and at least one second |
| `DocxChunking.Group` | app/parser_service/docx_extractor.py:88-103 | The loop partitions the blocks in order into chunks within the target, none of which had room for the next block |
| `DocxChunking.GreedyIsMinimal` | app/parser_service/docx_extractor.py:88-103 | No order-preserving grouping within the target has fewer chunks |
| `DocxChunking.ChunkCountIsBounded` | app/parser_service/docx_extractor.py:88-103 | Neighbouring chunks together exceed the target, which bounds their number by the text length |
| `DocxChunking.ShortTextsStayWithinTheUnitLimit` | app/parser_service/docx_extractor.py:105-109 | Up to a million characters the chunk limit cannot be hit |
| `DocxChunking.EmitUnits` | app/parser_service/docx_extractor.py:111-137 | Units 1..n with their cut contents; refused if and only if the total is too long |
| `DocxChunking.ExtractUnits` | app/parser_service/docx_extractor.py:65-137 | The extractor on an opened document: grouping, both limits, and the single empty unit of an empty document |
| `DocxText.TextsKeepTheBody` | app/parser_service/docx_extractor.py:31-86 | The extracted texts are, one to one and in body order, those of the blocks with a non-blank paragraph or cell: a paragraph without its outer white space; a table with every non-blank cell, trimmed, in row and column order at disjoint places, only " | " between cells of a row and a newline between rows |
| `DocxText.ChunksSayTheBody` | app/parser_service/docx_extractor.py:88-103 | Every block that says something lies in one chunk, and a chunk is its texts with blank lines between them and nothing else |
| `DocxChunking.UnitsCarryTheirChunk` | app/parser_service/docx_extractor.py:111-137 | A unit carries its number and locator, all of its normalized chunk that fits, and the digest of just that |
| `DocxChunking.EmittedUnitsAreAcceptable` | app/services/parser_client.py:120-174 | Everything the extractor emits passes the validation on the other side |
| `Instream.Stream` | app/services/clamav_client.py:189-240 | The bytes after the command are the frames of the sent part and the zero chunk, exceeded exactly when the file is over the limit; a failing read or send stops it exactly where it is come to |
| `Instream.DecodingFrames` | app/services/clamav_client.py:27-30 | Decoding the frames gives back the content and stops at the terminator: no data chunk reads as one |
| `Instream.TheDaemonReadsTheFile` | app/services/clamav_client.py:189-248 | A file within the limit arrives whole, a longer one as the whole chunks that fit |
| `Instream.ReadReply` | app/services/clamav_client.py:152-164 | The loop reads the specified buffer and returns the line before its first NUL |
| `Instream.ReadsUpToTheNul` | app/services/clamav_client.py:152-164 | What is read are the first pieces: up to one with a NUL, up to passing the bound, or all, without asking for more |
| `Instream.SegmentationDoesNotMatter` | app/services/clamav_client.py:152-164 | However the reply is cut into packets, the same line is read if at most 8192 bytes precede its NUL |
| `Instream.BufferingIsBounded` | app/services/clamav_client.py:152-164 | At most the bound and one receive buffer is kept |
| `Instream.OnlyOneReplyIsClean` | app/services/clamav_client.py:259-284 | Only one exact reply means clean; every named finding is a finding and every error reply an error |
| `Instream.ClassifiesExactlyAs` | app/services/clamav_client.py:259-284 | Every reply, with or without a name between the two ends: clean, a finding, an error, or a violation of the protocol |
| `Instream.ScanStream` | app/services/clamav_client.py:167-284 | A clean verdict means that nothing failed on the way, the daemon got the whole file and answered with the clean line; timeouts, broken connections and local read errors have their outcomes |
| `Instream.DisturbedExactlyWhen` | app/services/clamav_client.py:167-284 | Which failures reach the caller: a time-out as a time-out, anything else as an unavailable scanner, if and only if the call that fails is made |
| `EvidenceQuotes.NormalizationIsIdempotent` | app/services/evidence_validation.py:62-71 | Normalizing twice is normalizing once |
| `EvidenceQuotes.AWordNormalizes` | app/services/evidence_validation.py:62-71 | A word between white space normalizes to the word, folded |
| `EvidenceQuotes.NormalizesPartByPart` | app/services/evidence_validation.py:62-71 | Two trimmed texts with white space between them normalize to both, normalized, with one space between; with the one-word case this is what normalizing does to any text |
| `EvidenceQuotes.QuotesSurviveNormalization` | app/services/evidence_validation.py:84-99 | Any stretch of a page is a stretch of it after both are normalized |
| `EvidenceQuotes.QuotesExactlyWhen` | app/services/evidence_validation.py:84-99 | A quote is found if and only if neither text is empty and its normal form is a stretch of the page's |
| `EvidenceQuotes.ValidatesExactlyWhen` | app/services/evidence_validation.py:118-230 | Evidence is accepted, trimmed, if and only if it clears every check, in order; the first one missed is the refusal |
| `EvidenceQuotes.RetrieveEvidence` | app/services/retriever.py:131-147 | The loop offers the trimmed, cut text of every page with at least ten characters, in order |
| `EvidenceQuotes.OffersAreTheLongPages` | app/services/retriever.py:131-147 | One offer, in order, for each page whose trimmed text has at least ten characters: that text or its first 2000 |
| `EvidenceQuotes.OfferedPassagesValidate` | app/services/evidence_validation.py:118-230 | An offered passage is accepted on its page if and only if it still has ten characters once trimmed again |
| `EvidenceQuotes.AnOfferCanBeRefused` | app/services/retriever.py:131-147 | A concrete page whose offered passage is refused |
| `NearDuplicates.Deduplicate` | app/core/llm.py:147-174 | The kept drafts in order, and on every draft one note for each draft merged into it, even if a draft is listed twice |
| `NearDuplicates.NotesOnDistinctDrafts` | app/core/llm.py:161-171 | When no draft is listed twice, a kept draft has exactly the notes of what was merged into its place, in input order |
| `NearDuplicates.ANoteQuotesTheDraft` | app/core/llm.py:161-171 | A note carries page and section of the dropped draft and its first 80 characters |
| `NearDuplicates.KeptAreApart` | app/core/llm.py:147-174 | Kept drafts are pairwise below the threshold |
| `NearDuplicates.DroppedExactlyWhenClose` | app/core/llm.py:147-174 | A draft is dropped if and only if it reaches the threshold with an earlier kept one, and goes to the first such |
| `NearDuplicates.EveryDraftIsAccountedFor` | app/core/llm.py:147-174 | Kept drafts plus notes on them is the number of drafts |
| `NearDuplicates.ASecondPassDropsNothing` | app/core/llm.py:147-174 | A second pass drops nothing |
| `NearDuplicates.OverlapMeasures` | app/core/llm.py:138-144 | Overlap is the shared share of the tokens: symmetric, in [0, 1], 1 exactly for equal non-empty token sets, and its product with the size of the union is the size of the intersection |
| `NearDuplicates.DraftsWithoutTokensAreKept` | app/core/llm.py:138-144 | A draft without tokens is never merged |
| `ActiveRfp.AtMostOneActiveRfp` | app/services/project_service.py:132-183 | No interleaving of uploads and lifecycle steps leaves two active RFPs in a project |
| `ActiveRfp.StoredExactlyWhenNoneIsActive` | app/services/project_service.py:132-183 | After any run an upload that gets the lock can store its row if and only if every row of the project is rejected |
| `ActiveRfp.WithoutTheLockTwoUploadsBothPass` | app/services/project_service.py:158-170 | Without the row lock two uploads of any project both pass the check |
| `ActiveRfp.RejectionIsAbsorbing` | app/services/ingestion_state.py:93-95 | No permitted transition leaves a rejected state |
| `ActiveRfp.FirstActive` | app/services/project_service.py:74-83 | The first row that is not rejected, or none if all are |
| `ActiveRfp.GetProjectDocument` | app/services/project_service.py:86-96 | Finds the one active document whatever order the rows come in, and none exactly when there is none |
| `QuarantineUpload.QuarantineStore.StreamUpload` | app/services/quarantine_storage.py:142-233 | The upload against its specification, whichever call fails, the removal of its partial file included, and however the body is cut into reads |
| `QuarantineUpload.UploadsAreAllOrNothing` | app/services/quarantine_storage.py:154-233 | The whole body is stored if and only if both names were free, it is neither empty nor too long and no call that was made failed; otherwise the store is as it was, but for a partial file that was created and could not be removed, holding a prefix of the body |
| `QuarantineUpload.FailsExactlyAs` | app/services/quarantine_storage.py:154-233 | The code of a failed upload is that of the first hurdle missed, or of a removal that fails in its turn |
| `QuarantineUpload.RecordsTheBody` | app/services/quarantine_storage.py:170-187 | What a stored upload records: digest and size of the whole body, its first and its last 1024 bytes |
| `QuarantineUpload.OnlyTheBytesMatter` | app/services/quarantine_storage.py:170-187 | Digest, size, header and tail of an undisturbed upload are those of the whole body however it is cut into reads |
| `QuarantineUpload.TailOfTail` | app/services/quarantine_storage.py:186-186 | Keeping the last bytes at every chunk keeps the last bytes of the whole |

## Left out

- Routes, templates, exports, the command line, logging, metrics, configuration and the legacy job pipeline: they add no protocol of their own, or write outside the paths modelled here.
- The requirement edit, split, merge and delete routes: they change Requirements outside the candidate path, so the review theorems speak of the two candidate services only.
- Sockets, HTTP, subprocesses, PDF and DOCX parsing, the content-policy inspectors and the model provider: each is an arbitrary answer, and a failed connection is one of the scanner's outcomes.
- SQLAlchemy identity map, expiry and autoflush, column widths, symbolic links, file modes and durability of fsync: replaced by the assumptions above.
- Extraction audit rows, provider usage counters and timestamps of rows: written beside the transactions and read by nothing modelled.
- The audit detail of a transition: operator-only text that no branch reads.
- Overlapping `run_scan` calls on one document and the legacy re-verification of LEGACY_UNVERIFIED rows: the former is documented as unsafe, the latter has no caller.
- The time of a retry in the step system: it is a step that may happen at any time.
- CleanPromotion.PromoteDocument: the operator's failure summary is only the code, not the message around it; a status changed by somebody else before the CLEAN commit is a step of Pipeline, not a fault of a call that runs alone.
- Instream.ScanStream: of a frame whose sending fails, the part that was sent is not recorded.
- QuarantineUpload.QuarantineStore.StreamUpload: the quarantine directory is there, and a partial file holds whole chunks.
- Parsing right after promotion in the queue-less mode: it is scheduled as a task of the event loop, or dropped without one, and never runs inside the calls modelled here.
- The draft-grounding checker and the requirement-text normalizer: their scores use floating point and regular expressions; token sets are a parameter instead.
- Redis stores: the in-memory stores define the semantics, so the Redis expiry of a user's session index is not modelled; the TTL of a save is recorded in the reply only.
- Corrupt or oversized session records: the only malformed record modelled is a partial identity, which a route can write.
- Overlapping requests on one session, and an unavailable store or clock going back: requests run one at a time.
- Password hashing, CSRF, host and address checks: opaque or one-branch.
- EvidenceQuotes.Validate: the length messages are shortened; statuses, order and conditions are those of the source.
