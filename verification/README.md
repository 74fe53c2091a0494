# Verified model of the corpus trust machinery

A connected factory turns documents into a signed corpus release and carries it to disconnected nodes. This
project models that machinery in Dafny and proves what each part keeps over whole runs. Each component has a
module of its own.

- **Activation** (`ActiveRelease`, `Activation`, `ActivationSafety`, `ActivationRuns`,
  `ActivationManager`, `ActivationAuthority`): the manager that stages and commits a release by atomic
  file replacements, with a loss of power after any of them and an exception at any step, against the
  resolver that decides what may be served.
- **Audit** (`Audit`, `AuditAnchor`, `AnchorAcceptance`): the hash-chained ledger and its witnessed
  checkpoints.
- **Governed evidence** (`Promotion`, `PromotionNumbers`, `PromotionFailures`, `EvaluationAttestation`,
  `ReleaseSigning`, `SigningReplay`, `SigningRetries`, `GovernedDistribution`): evaluate, attest,
  authorize, sign and verify, each stage naming the digest of the one before; the replay table of the
  signing service is a protocol of concurrent signers.
- **Transfer** (`Hpke`, `Transfer`, `TransferRoundTrip`, `TransferImport`, `TransferHistory`): encrypted
  transfer sets, with the key wrapping compared with RFC 9180, and the replay state of the importing
  sites.
- **SMS splitting** (`SmsSplitter`, `SmsNumbering`), **chunking** (`CorpusChunker`, `SpanLaws`,
  `HeadingMeaning`) and **section paths** (`SectionPaths`, `SectionDepths`).
- **Fleet messages** (`Fleet`): sender sequences and receiver marks over a hostile network.
- **Rollout** (`ActivationContracts`, `DeploymentReconciliation`, `FleetCompliance`): the monitor of one
  deployment and the classifier of the fleet.
- **Rate limiting** (`RateLimiter`): the pruned list against the full history.
- **Planning and review** (`Coverage`, `CoverageReports`, `CoveragePlan`, `PlannedCoverage`, `Sourcing`,
  `Review`) and **embedding artifacts** (`Embeddings`, `EmbeddingRoundTrip`).

`Prelude`, `Identifiers`, `Crypto`, `PythonText`, `Sorting`, `Safety` and `Validity` hold what they share.

## How to read it

What each part accepts or decides is stated twice: as the predicate its method is proved against, and
independently on the fields of the records, without those predicates and their tables. The `...Meaning`
modules, `Formats`, `AnchorAcceptance`, `PromotionNumbers`, `PromotionFailures`, `CoveragePlan` and
`SpanLaws` hold the second statements and prove that they agree for every input.

An operation that the program performs step by step is a method, often of a class, whose `ensures` ties it
to a specification function or predicate; what the program promises is proved about those as lemmas. Runs
are sequences of events folded over a state, and theorems quantify over every run. In `TransferImport` and
`SigningReplay` what the rest relies on is a parameter, and a lemma shows that the program provides it. The
laws asked of encoders and of cryptography can be met: `EmbeddingCodec` and `TransferPlatform` build a codec
and a platform that have them, over the tree coding of `Encodings`.

Digests and signatures in the evidence chain, the ledger and the fleet are symbolic: a digest is the value
it was taken of, and a signature names its key and message. In the transfer modules cryptography is a record
of functions with the usual laws: Diffie-Hellman commutes, what is sealed opens, an HMAC key is padded with
zeros, and SHA-256 does not collide on the contents at hand. Times are whole numbers and promotion metrics
are reals; doubles in embedding vectors are a mantissa and an exponent. Single-writer use of an activation
store and of one site's inbox is assumed, as the program takes no lock there; the manifest of a candidate
hashes to the candidate's digest.

## What the proofs found

- `OntoAnotherDigestIff` is what a caller can check: another digest than the live one.
  `AttemptServableIff` names every way an activation takes the live release out of service: offering the
  live digest at a higher sequence, which overwrites the live state record, and an exception raised after
  the pointer was renamed, because the handler records REJECTED before it rereads the pointer.
- `FalseSuccessIff` and `AlreadyActiveIsWrongIff` say exactly when a receipt claims more than happened;
  `FalseSuccessIsPossibleIff` is what a caller can check, and two concrete runs show it.
- A text of 7650 characters can overflow a part; every shorter one fits (`AllTextsFitIff`).
- A maximum of 8 or less makes the splitting loop run forever on ordinary text; `LoopEndsIff` is exact for
  every maximum.
- The digests in the audit ledger do not cover line boundaries: a line feed inside it can become a
  carriage return (`TamperingShowsIff`). An anchored prefix digest does cover them
  (`AcceptedLedgersAgree`).
- Section paths need every skipped level to be made up for; `PathIsChainIff` is exact, on levels alone.
- Export does not compare the nonces it draws; a set with a repeated nonce is refused only when it is
  verified (`ExportedIsAcceptedIff`).
- Preparing an attestation accepts approvals older than the validity window; finalizing refuses them
  (`FinalizedIff`). The signer takes candidates of up to 16 MiB, the verifier manifests of up to 4 MiB
  (`HonestBundleAcceptedIff`).
- `docs/release-signing-service.md:9` promises that the replay store makes an identical request
  idempotent. The code (`corpus_factory/release_signing.py:246-260`) does not: the request digest covers
  the signing time and the key record, so a repetition gets the stored record if and only if clock
  reading, key record and authorization are the same (`RetryIsReplayedIff`, `SecondCallGetsRecordIff`,
  `LaterCallIsReplayedIff`). Any other repetition that reaches the lookup is a conflict
  (`RetryOneSecondLaterConflicts`); one past the authorization age is refused before it; one after a stop
  before the insertion finds no row and is signed afresh (`StoppedCallLeavesNoTrace`).
- A chunk ID with a next-line, line-separator or paragraph-separator character can be written into an
  embedding artifact but never read back (`ReadableIff`).

## Model

| member | source | states |
|---|---|---|
| `ActivationManager.CorpusActivationManager.Handle` | backend/services/rag_service/activation.py:251-344 | activating or recovering makes exactly the durable writes of `Perform`, in that order, and hands out its receipt, wherever an exception falls |
| `ActivationManager.CorpusActivationManager.PrepareAndCommit` | backend/services/rag_service/activation.py:346-414 | stage, record each stage, write the counter, sign, record the final state, write the pointer, with the handler after an exception at any of the ten steps |
| `ActivationManager.CorpusActivationManager.HandleException` | backend/services/rag_service/activation.py:404-414 | the handler records REJECTED first, rereads the pointer, and returns the success receipt exactly when the candidate is live |
| `ActivationManager.CorpusActivationManager.NextDeviceCounter` | backend/services/rag_service/activation.py:486-496 | the next counter exceeds the persisted one and the one in the live pointer, and is durable before it is used |
| `ActivationManager.CorpusActivationManager.RecordState` | backend/services/rag_service/activation.py:476-484 | a state record extends the history read from disk |
| `ActivationSafety.NextPointerOk` | backend/services/rag_service/active_release.py:207-289 | the pointer written by an admitted request passes every check of the resolver |
| `ActivationSafety.PrepareKeepsInv` | backend/services/rag_service/activation.py:346-414 | after any prefix of the writes of an attempt the live release can still be served, unless the attempt is one of the named bad ones |
| `ActivationSafety.AttemptServableIff` | backend/services/rag_service/activation.py:346-414 | an attempt leaves every durable state servable if and only if it does not touch the live digest and no exception that the handler records follows the rename of the pointer |
| `ActivationSafety.OntoAnotherDigestIff` | backend/services/rag_service/activation.py:346-414 | checkable before the call: wherever it is interrupted short of an exception after the rename, an attempt keeps every durable state servable if and only if the candidate carries another digest than the live release |
| `ActivationRuns.RunKeepsInv` | backend/services/rag_service/activation.py:251-414 | the service invariant survives any run of activations and recoveries, each cut short after any write |
| `ActivationRuns.EveryDurableStateIsServed` | backend/services/rag_service/active_release.py:126-312 | from an empty disk, in every durable state a present pointer passes the pointer check, its release the state check, and the resolver serves it |
| `ActivationRuns.OtherDigestsStayServed` | backend/services/rag_service/active_release.py:126-312 | activations and recoveries each onto a digest other than the active one keep the node in service in every durable state of the run |
| `ActivationRuns.StepEffect` | backend/services/rag_service/activation.py:251-414 | what one event, stopped after any write, may change: pointer only to the next pointer, counters only upwards |
| `ActivationRuns.CommitsOrdered` | backend/services/rag_service/activation.py:251-344 | of any two commits of a run: the floor does not fall, a later production release exceeds every earlier floor also after a recovery, no recovery marker is committed twice, device counters increase |
| `ActivationRuns.FloorNeverFalls` | backend/services/rag_service/activation.py:374-400 | the sequence floor never falls over any run |
| `ActivationRuns.ReceiptCountersIncrease` | backend/services/rag_service/activation.py:486-516 | the counters of the receipts handed out along a run strictly increase |
| `ActivationRuns.FalseSuccessIff` | backend/services/rag_service/activation.py:346-414 | a receipt reports an activation that did not move the pointer exactly when the candidate carries the live digest and the attempt failed after signing |
| `ActivationRuns.FalseSuccessIsPossibleIff` | backend/services/rag_service/activation.py:346-414 | checkable before the call: some failure can produce such a receipt if and only if the candidate carries the live digest and its staged package verifies |
| `ActivationRuns.LiveDigestFalseSuccess` | backend/services/rag_service/activation.py:346-414 | the live digest offered at sequence 2, with the final state unrecorded: the receipt says 2 was activated, and 1 stays active |
| `ActivationRuns.AlreadyActiveIsWrongIff` | backend/services/rag_service/activation.py:258-269 | after any run, an ALREADY_ACTIVE receipt names the wrong active sequence exactly when a recovery has put a release below the floor in service |
| `ActivationRuns.RecoveredSequenceIsMisreported` | backend/services/rag_service/activation.py:258-269 | activate a release at sequence 2, recover onto another at 1, offer that one at 2: ALREADY_ACTIVE names 2 while 1 is active |
| `ActivationRuns.LiveDigestLosesService` | backend/services/rag_service/activation.py:262-269 | the live digest offered again at a higher sequence takes the live release out of service: a concrete run |
| `ActivationRuns.LateExceptionLosesService` | backend/services/rag_service/activation.py:404-414 | an exception after the pointer was renamed ends with the live release REJECTED and a success receipt: a concrete run |
| `ActivationAuthority.MovesAreEntitled` | backend/services/rag_service/activation.py:251-344 | the pointer moves only for an entitled request, onto exactly what it asks for: an activation above the floor, or a recovery whose unused authorization names the candidate, the release and floor it leaves and this site, and if exceptional also sequence and event |
| `ActivationAuthority.EveryCommitIsEntitled` | backend/services/rag_service/activation.py:271-344 | over any run, every commit is of an entitled request and is the pointer it asks for |
| `ActivationAuthority.ServedWasRequested` | backend/services/rag_service/active_release.py:126-197 | whatever the run from an empty disk, the release served, its mode and its blocked classes are those of one request of the run, entitled when it was made |
| `ActivationAuthority.UninterruptedCommitsIff` | backend/services/rag_service/activation.py:346-414 | uninterrupted, a request ends in the pointer it asks for if and only if it is entitled and its package is sound; otherwise the pointer stays |
| `ActivationAuthority.EntitledIsTold` | backend/services/rag_service/activation.py:346-414 | what an entitled request is told, and the stages it leaves on record, for a sound and for an unsound package |
| `ActivationAuthority.RefusedMeans` | backend/services/rag_service/activation.py:257-330 | a request that is not entitled is told why and what stays live, and only the counter moves |
| `ActivationAuthority.CutShortAnywhere` | backend/services/rag_service/activation.py:346-403 | cut short after any step: the package is staged first, the stages recorded one by one, the counter raised before the receipt is signed, the final stage recorded after it, the pointer still in place |
| `ServingMeaning.ServedIff` | backend/services/rag_service/active_release.py:126-312 | something is served if and only if the pointer is coherent, the release it names was put in service, and its package is the one of that digest and valid |
| `Formats.DigestIff` | backend/services/rag_service/active_release.py:21 | a digest is "sha256:" and 64 digits of the lower-case hexadecimal alphabet |
| `Formats.NonceIff` | backend/services/rag_service/active_release.py:37 | a nonce is 22 to 128 characters of the URL-safe alphabet |
| `Formats.IdIff` | corpus_factory/audit.py:30 | an identifier is 3 to 128 characters, the first a letter or digit |
| `Formats.UuidIff` | backend/services/rag_service/active_release.py:250-262 | a UUID is groups of 8, 4, 4, 4 and 12 hexadecimal digits joined by dashes |
| `Audit.VerifyData` | corpus_factory/audit.py:124-144 | accepts a ledger exactly when its last byte is a line feed and every entry is canonical, in sequence, names its predecessor and does not go back in time; returns its head |
| `Audit.AuditLedger.Append` | corpus_factory/audit.py:158-205 | appends exactly one valid entry to a verified ledger, or changes nothing |
| `Audit.ChainedSnoc` | corpus_factory/audit.py:81-121 | a ledger stays verified under an append if and only if the new entry is valid after the head |
| `Audit.EntryDigestFixesHistory` | corpus_factory/audit.py:81-144 | one entry digest fixes its position and every entry before it, in any two verified ledgers |
| `Audit.HeadDigestFixesLedger` | corpus_factory/audit.py:124-144 | two verified ledgers with the same last entry digest have the same entries |
| `Audit.TimesOrdered` | corpus_factory/audit.py:81-121 | entry times never go back between any two entries |
| `Audit.TamperingShowsIff` | corpus_factory/audit.py:81-144 | a ledger with one line other than the last replaced verifies if and only if the line holds the same entry; which line boundary ends it is not covered |
| `AuditAnchor.Arrange` | corpus_factory/audit_anchor.py:311-340 | sorting receipts by sequence succeeds exactly when they are 1 to n without replay, fork or gap |
| `AuditAnchor.VerifyAnchorChain` | corpus_factory/audit_anchor.py:311-399 | accepts exactly the receipts that can be arranged into a linked, verified chain on the ledger, each recording head, size and digest of its prefix, and summarizes that chain |
| `AuditAnchor.OrderIrrelevant` | corpus_factory/audit_anchor.py:311-399 | acceptance and summary do not depend on the order receipts are supplied in |
| `AuditAnchor.AcceptedLedgersAgree` | corpus_factory/audit_anchor.py:81-102 | two ledgers accepted for the same receipts are at least as long as the last anchored prefix and agree on it line by line, ends included |
| `AuditAnchor.LastReceiptFixesChain` | corpus_factory/audit_anchor.py:353-389 | two accepted chains that end in one receipt are the same chain: there are no forks |
| `AuditAnchor.SignedBeforeLast` | corpus_factory/audit_anchor.py:353-389 | witness times never go back along an accepted chain |
| `AuditAnchor.StillVerifies` | corpus_factory/audit_anchor.py:276-308 | extending the ledger keeps every receipt verified at any later time |
| `AuditAnchor.PreparedAfter` | corpus_factory/audit_anchor.py:118-184 | a checkpoint prepared after a receipt continues its ledger and sequence and is not earlier than its witnessing |
| `AuditAnchor.ExtendedChainVerifies` | corpus_factory/audit_anchor.py:118-273 | a verified chain, its ledger extended and a new receipt prepared, witnessed and finalized honestly, is again a verified chain; the order of witness times is derived |
| `AuditAnchor.FirstReceiptVerifies` | corpus_factory/audit_anchor.py:118-273 | the first honest receipt of a ledger makes a verified chain |
| `AnchorAcceptance.AcceptedIff` | corpus_factory/audit_anchor.py:276-399 | receipts are accepted if and only if, in some order, they form a chain in which each is signed by its trusted key, in force, well made and anchors a prefix of the verified ledger: every conjunct stated on the fields |
| `AnchorAcceptance.AcceptedReceiptsAreSigned` | corpus_factory/audit_anchor.py:276-308 | every accepted receipt carries the signature of the trusted key it names on exactly its statement; the key is not revoked and the witness time not after verification |
| `AnchorAcceptance.UnsignedIsRefused` | corpus_factory/audit_anchor.py:306-308 | a receipt whose signature is not the trusted key's makes the whole list unacceptable |
| `AnchorAcceptance.SummaryNamesLast` | corpus_factory/audit_anchor.py:390-399 | the summary names the ledger, the number of receipts and the last of them |
| `AnchorAcceptance.VerifiedIff` | corpus_factory/audit.py:81-144 | a ledger verifies exactly when its last byte is a line feed and every line stands: sequence, predecessor, time and digest on the fields |
| `AnchorAcceptance.AppendIff` | corpus_factory/audit.py:158-205 | an event is appended to a verified ledger exactly when it is a known one with sound fields and not before the last entry; the entry has the next number, names the last one and repeats the event |
| `AnchorAcceptance.SizeSnoc` | corpus_factory/audit_anchor.py:81-102 | the size of a ledger is what its entries and the ends of its lines take |
| `AnchorAcceptance.FirstCheckpointIff` | corpus_factory/audit_anchor.py:118-184 | the first checkpoint is made exactly of a verified ledger |
| `AnchorAcceptance.NextCheckpointIff` | corpus_factory/audit_anchor.py:118-184 | a later one exactly after a receipt that stands on the ledger at that time |
| `AnchorAcceptance.WitnessStatementIff` | corpus_factory/audit_anchor.py:187-245 | a witness statement is about this checkpoint, by someone other than its requester, inside the key window |
| `AnchorAcceptance.ReceiptIff` | corpus_factory/audit_anchor.py:254-273 | a receipt is a statement with the signature of the key it names |
| `SmsSplitter.ChunkSmsResponse` | backend/services/message_router/main.py:879-914 | for every text and maximum on which the source returns (`LoopEndsIff`), the loop terminates and returns the parts of the specification |
| `SmsSplitter.PartsKeepText` | backend/services/message_router/main.py:879-914 | for every text and maximum on which the source returns, the bodies carry exactly the visible characters in order, each followed by its number and the total when there are several |
| `SmsNumbering.PartsAreNumbered` | backend/services/message_router/main.py:908-914 | part i is its body, then " (", a, "/", b, ")", where a separate reader of digits reads a as i + 1 and b as the number of parts; the bodies carry the visible characters |
| `Formats.SpaceIff` | backend/services/message_router/main.py:896-907 | white space is what `str.strip` takes off, character by character |
| `SmsSplitter.CutsAtBlanks` | backend/services/message_router/main.py:898-904 | a cut falls inside a word only when the window holds no blank |
| `SmsSplitter.TwoCutsConsume` | backend/services/message_router/main.py:894-904 | two consecutive cuts that leave more than a chunk consume at least 153 characters of a 152-character limit |
| `SmsSplitter.ChunkCount` | backend/services/message_router/main.py:879-914 | a text shorter than 153 (k + 1) characters makes at most 2 k + 1 chunks |
| `SmsSplitter.ShortTextsFit` | backend/services/message_router/main.py:879-914 | every part of a text below 7650 characters has at most 160 characters |
| `SmsSplitter.AllTextsFitIff` | backend/services/message_router/main.py:879-914 | all texts of a length split into parts of at most 160 characters if and only if the length is below 7650 |
| `SmsSplitter.LoopEndsIff` | backend/services/message_router/main.py:894-904 | the loop ends exactly when the maximum exceeds 8 or the slice of the text that the limit names is white space: at 8 the whole text, at 8 - k its last k characters or all of a shorter text |
| `SmsSplitter.LoopAlwaysEndsIff` | backend/services/message_router/main.py:894-904 | the loop ends on every text if and only if the maximum exceeds 8 |
| `CorpusChunker.ChunkSpans` | corpus_factory/core/pipeline.py:336-365 | the loop terminates and returns the spans of the specification |
| `CorpusChunker.SpansAreSound` | corpus_factory/core/pipeline.py:336-365 | spans are non-empty, at most `maximum` long and start and end on visible characters |
| `CorpusChunker.SpansAreOrdered` | corpus_factory/core/pipeline.py:336-365 | spans are ordered and disjoint |
| `CorpusChunker.SpansAreComplete` | corpus_factory/core/pipeline.py:336-365 | only white space lies outside the spans |
| `CorpusChunker.SpansStopAtHeadings` | corpus_factory/core/pipeline.py:341-349 | no heading starts inside a span |
| `CorpusChunker.WordsAreCutOnlyWhenTooLong` | corpus_factory/core/pipeline.py:350-362 | a span ends inside a word only when the word fills it |
| `SpanLaws.SpansAreMaximal` | corpus_factory/core/pipeline.py:336-365 | no span could have been longer: with no heading up to the next start, every separator after that start and the end of the text lie beyond start + maximum |
| `SpanLaws.SpansAreLawful` | corpus_factory/core/pipeline.py:336-365 | the spans obey all the laws at once |
| `SpanLaws.LawsDetermineSpans` | corpus_factory/core/pipeline.py:336-365 | the laws determine the spans: a list obeys them if and only if it is the one the chunker returns |
| `SpanLaws.FittingTextIsOneSpan` | corpus_factory/core/pipeline.py:350-365 | a text that fits and has no later heading is one span, from its first to its last visible character |
| `HeadingMeaning.HeadingOfLineIff` | corpus_factory/core/pipeline.py:321 | a line is a heading if and only if it is one to six hashes, blanks, a title without blanks at its ends and blanks |
| `HeadingMeaning.HeadingsAre` | corpus_factory/core/pipeline.py:324-345 | the headings of a text are exactly its lines that read as headings |
| `SectionPaths.SectionPath` | corpus_factory/core/pipeline.py:324-333 | the loop returns the titles of the path of headings at or before the offset |
| `SectionPaths.PathConstantInsideSpan` | corpus_factory/core/pipeline.py:382-420 | every offset inside a chunk has the section path recorded at its start |
| `SectionPaths.PathIsChainIff` | corpus_factory/core/pipeline.py:324-333 | the recorded path is the chain of nearest ancestor headings after every heading if and only if each heading goes deeper than the one before it or has every level above its own open |
| `SectionPaths.GradualPathIsChain` | corpus_factory/core/pipeline.py:324-333 | when levels start at one and never rise by more than one, the path is the chain of nearest ancestors |
| `SectionPaths.SkippedLevelMisplaces` | corpus_factory/core/pipeline.py:324-333 | in every text of a level-3 heading line followed by a level-2 heading line, the path of the second section begins with the first, which is none of its ancestors |
| `SectionPaths.SkippedLevelExample` | corpus_factory/core/pipeline.py:324-333 | the document "### a", "## b": offset 6 gets the path a, b |
| `SectionDepths.PathOnDepths` | corpus_factory/core/pipeline.py:324-333 | for every text and offset, skipped levels included, the path names for each depth the last heading that deep with only deeper ones after it |
| `Fleet.FleetSequenceStore.ReserveNext` | backend/services/node_manager/fleet_client.py:32-50 | reserves the next sequence and makes it durable before returning it |
| `Fleet.FleetMessageSigner.Sign` | backend/services/node_manager/fleet_client.py:82-110 | a refused request reserves nothing; otherwise a fresh sequence is spent and the proof signs exactly this message |
| `Fleet.FleetReplayStore.Advance` | backend/services/node_manager/fleet_auth.py:97-123 | moves a node's mark up to the sequence, or refuses and changes nothing |
| `Fleet.FleetAuthenticator.Verify` | backend/services/node_manager/fleet_auth.py:204-255 | accepts exactly the authentic messages above the node's mark, and is stale exactly for authentic messages that are not |
| `Fleet.SenderStep` | backend/services/node_manager/fleet_client.py:32-110 | every event keeps reserved and signed sequences of a node distinct and below its counter, with several workers and stops between reserving and signing |
| `Fleet.ReceiverStep` | backend/services/node_manager/fleet_auth.py:97-123 | every event keeps the mark of a node equal to the last sequence accepted from it |
| `Fleet.SequencesAreNotReused` | backend/services/node_manager/fleet_client.py:32-50 | no node ever signs two messages with one sequence |
| `Fleet.AcceptedSequencesIncrease` | backend/services/node_manager/fleet_auth.py:97-123 | accepted sequences of a node strictly increase |
| `Fleet.AcceptedOnceAndAuthentic` | backend/services/node_manager/fleet_auth.py:204-255 | what is accepted under a node's own key was signed by that node, and each signed message is accepted at most once |
| `Fleet.AcceptedIff` | backend/services/node_manager/fleet_auth.py:97-123 | an authentic message is accepted if and only if everything accepted from its node before has a lower sequence |
| `Fleet.SignedIsAuthentic` | backend/services/node_manager/fleet_auth.py:204-255 | a signed message is authentic exactly where its key is enrolled and enabled and the clocks are within the window |
| `Fleet.AuthenticIff` | backend/services/node_manager/fleet_auth.py:150-255 | what authentic means on the fields: enrolled, enabled, under the enrolled key, inside the clock window, signed over exactly this envelope |
| `Fleet.ReserveThenSignAdds` | backend/services/node_manager/fleet_client.py:32-110 | reserving and signing without a stop adds one signed message under the next sequence of the node |
| `Fleet.StopLosesReservations` | backend/services/node_manager/fleet_client.py:32-50 | a stop loses reservations of its node and nothing durable |
| `Fleet.InOrderDeliveryIsAccepted` | backend/services/node_manager/fleet_auth.py:204-255 | in-order delivery inside the clock window rejects nothing valid, whatever else the network does |
| `DeploymentReconciliation.DeploymentReconciler.Evaluate` | backend/services/rag_service/deployment_reconciliation.py:105-225 | one call returns the answer of the specification and leaves exactly its memory |
| `DeploymentReconciliation.DeploymentReconciler.Create` | backend/services/rag_service/deployment_reconciliation.py:68-103 | exactly a coherent receipt of success and bounded limits make a reconciler |
| `DeploymentReconciliation.FirstTerminalIsPermanent` | backend/services/rag_service/deployment_reconciliation.py:117-118 | the first terminal result is returned by every later call, whatever it is given |
| `DeploymentReconciliation.VerifiedIsSound` | backend/services/rag_service/deployment_reconciliation.py:153-163 | VERIFIED needs a call that saw exactly the accepted release, after 1 to the maximum of restarts, within the timeout |
| `DeploymentReconciliation.UndecidedMeansInTime` | backend/services/rag_service/deployment_reconciliation.py:190-225 | a non-terminal result means elapsed below the timeout, attempts within bounds, and nothing terminal before |
| `DeploymentReconciliation.ServedInTimeIsVerified` | backend/services/rag_service/deployment_reconciliation.py:153-163 | an undecided monitor verifies exactly the observations in bounds that show the release served |
| `DeploymentReconciliation.EveryAnswerIsBounded` | backend/services/rag_service/deployment_reconciliation.py:256-275 | whatever the calls, every answer names the accepted release and keeps attempts and seconds inside the configured bounds |
| `RolloutMeaning.AnswerOnFields` | backend/services/rag_service/deployment_reconciliation.py:105-275 | an undecided monitor answers every usable observation that does not move back with the verdict on its fields and figures cut off at the bounds, and refuses any other |
| `RolloutMeaning.MonitorIff` | backend/services/rag_service/deployment_reconciliation.py:68-103 | a monitor is made exactly of a receipt that says its desired release went into production, and of 1 to 100 attempts within a day |
| `FleetCompliance.AgreesWithReconciler` | backend/services/node_manager/fleet_compliance.py:149-181 | for one status, COMPLIANT and VERIFIED coincide, and a target the reconciler rejects is unready or in recovery |
| `FleetCompliance.DesiredReleaseCompliancePolicy.Evaluate` | backend/services/node_manager/fleet_compliance.py:102-147 | reports on every bounded list of valid observations of distinct nodes and on nothing else |
| `FleetCompliance.ReportForgetsOrder` | backend/services/node_manager/fleet_compliance.py:130-147 | the report does not depend on the order of the observations |
| `FleetCompliance.FleetCompliantIff` | backend/services/node_manager/fleet_compliance.py:139-147 | the fleet is compliant exactly when it is not empty and every node is online, ready and serving the desired release in production |
| `FleetCompliance.CountsAddUp` | backend/services/node_manager/fleet_compliance.py:134-140 | every node is counted in exactly one class |
| `RolloutMeaning.ReportOnFields` | backend/services/node_manager/fleet_compliance.py:102-214 | one node for each observation, in order of IDs, with the class its fields call for and what it shows |
| `RolloutMeaning.EvaluableIff` | backend/services/node_manager/fleet_compliance.py:102-130 | a fleet is reported on exactly when it has at most 10,000 nodes, each named once, with coherent statuses and receipts |
| `RolloutMeaning.CountsOnFields` | backend/services/node_manager/fleet_compliance.py:134-147 | each class is counted as often as it occurs, and the fleet complies when it has nodes and all serve the release |
| `RateLimiter.PrivacyFilter.CheckRateLimit` | backend/services/privacy_filter/main.py:240-275 | prunes the list to the last hour and compares both counts with their limits |
| `RateLimiter.PrivacyFilter.ValidateMessage` | backend/services/privacy_filter/main.py:394-460 | blocked, rate limited, high risk or accepted and recorded, in that order, with the statistics of each |
| `RateLimiter.RecentTwice` | backend/services/privacy_filter/main.py:250-262 | pruning and pruning again later keeps what the later pruning keeps |
| `RateLimiter.PrunedListDecidesAsHistory` | backend/services/privacy_filter/main.py:240-282 | over any run with a clock that never goes back, the pruned list decides as the full accepted history would |
| `RateLimiter.NoWindowIsOverfull` | backend/services/privacy_filter/main.py:240-282 | no half-open minute holds more than the limit per minute and no half-open hour more than the limit per hour, although check and record read the clock separately |
| `RateLimiter.ClosedWindowOverflows` | backend/services/privacy_filter/main.py:250-262 | a window closed at both ends can hold one more: a concrete run |
| `RateLimiter.EveryValidationIsCounted` | backend/services/privacy_filter/main.py:394-446 | over any run each validation is counted once, under the verdict it ended with, and the counts are exactly those of the verdicts |
| `RateLimiter.DecidedByCounts` | backend/services/privacy_filter/main.py:240-275 | a message is limited exactly when the accepted ones of the last 60 seconds, or of the last 3600, reach their limit |
| `RateLimiter.ValidationOnFields` | backend/services/privacy_filter/main.py:240-282 | one validation leaves its sender's list with the times of the last hour and its own if accepted, and nothing else changes |
| `Hpke.ContextAgrees` | corpus_factory/distribution.py:102-112 | key and nonce are those of section 5.1 of RFC 9180 in base mode |
| `Hpke.WrapFollowsRfc9180` | corpus_factory/distribution.py:115-130 | wrapping is one seal under the sender context of sections 4.1 and 5.1 of RFC 9180 |
| `Hpke.UnwrapFollowsRfc9180` | corpus_factory/distribution.py:133-150 | unwrapping opens under the receiver context of the RFC |
| `Hpke.UnwrapInvertsWrap` | corpus_factory/distribution.py:115-150 | sender and receiver derive one context and unwrapping returns the wrapped key; 32 and 48 bytes long |
| `Transfer.ValidateManifest` | corpus_factory/distribution.py:531-628 | accepts exactly the manifests that obey the field, scope, envelope, layer and nonce rules |
| `Transfer.VerifyTransferSet` | corpus_factory/distribution.py:429-528 | accepts exactly the closed-world sets whose every file is bound to the manifest digest, in scope, fresh, and signed as asked |
| `Transfer.ExportEncryptedTransferSet` | corpus_factory/distribution.py:295-426 | writes exactly the exported files, or refuses |
| `Transfer.DecryptTransferSet` | corpus_factory/distribution.py:690-790 | stages exactly the contents the set decrypts to and the record that lists them, or refuses when it decrypts to nothing |
| `TransferRoundTrip.ExportedIsAcceptedIff` | corpus_factory/distribution.py:295-528 | an exported set is accepted at its site if and only if the five nonces differ, the identity is expected and the signature is there |
| `TransferRoundTrip.RepeatedNonceIsExportedThenRefused` | corpus_factory/distribution.py:334-395 | a shipment of five empty artifacts under one nonce: export accepts it, no site accepts what it wrote |
| `TransferRoundTrip.RoundTrip` | corpus_factory/distribution.py:295-790 | for all five artifacts and any recipient key, export, verify, decrypt returns exactly the original bytes |
| `TransferRoundTrip.StagedListsOriginals` | corpus_factory/distribution.py:735-776 | the decryption record lists the five originals with their digests and sizes, for this event, site and sequence, as governed exactly when that was asked for |
| `TransferRoundTrip.DigestFixesSet` | corpus_factory/distribution.py:462-528 | two accepted sets with one manifest digest hold the same manifest and artifacts |
| `TransferRoundTrip.DecryptedIsPromised` | corpus_factory/distribution.py:735-790 | decryption only ever yields contents with the promised digest, size, site, name and position |
| `TransferMeaning.AcceptableIff` | corpus_factory/distribution.py:429-528 | verification accepts exactly the sets a site takes: address, manifest, expectation, presence, closed world, signature and governance on the fields |
| `TransferMeaning.ManifestOkIff` | corpus_factory/distribution.py:531-628 | validation accepts exactly the regular manifests |
| `TransferMeaning.DecryptsToIff` | corpus_factory/distribution.py:690-776 | decryption yields contents exactly for a regular set of this site and key whose layers all open to them |
| `TransferMeaning.ExportableIff` | corpus_factory/distribution.py:295-360 | what may be exported |
| `TransferImport.Inbox.ImportTransferSet` | corpus_factory/distribution.py:631-687 | verify, place, then replace the state; stopping after either write leaves exactly that much |
| `TransferImport.CommitsAdvance` | corpus_factory/distribution.py:484-487 | under any interleaving of import steps and stops, a site's commits have strictly increasing sequences and distinct media and stay in its inbox |
| `TransferImport.RetryCommitsSameSet` | corpus_factory/distribution.py:658-687 | retrying after a stop between rename and state write commits the same content-addressed set and leaves the copy unchanged |
| `TransferImport.StopAndRetryIsOneImport` | corpus_factory/distribution.py:658-687 | stopping after the rename and retrying ends where one import would have |
| `TransferHistory.StateIsHistory` | corpus_factory/distribution.py:631-687 | over any run, the import state of a site holds exactly the sequence of its last commit and the media of all of them |
| `TransferHistory.TakenAfterRun` | corpus_factory/distribution.py:484-487 | after any run, a site takes a set exactly when its configuration does, it is newer than the last commit and on media never committed |
| `TransferHistory.InboxHoldsVerified` | corpus_factory/distribution.py:658-676 | what an inbox holds under a digest verified as a set of that digest |
| `TransferHistory.OneImport` | corpus_factory/distribution.py:631-687 | an import without a stop commits what verifies into a free or matching place, and changes nothing otherwise |
| `TransferImport.VerifierIsReliable` | corpus_factory/distribution.py:429-528 | the verification of transfer sets meets what the import protocol relies on |
| `Promotion.EvaluatePromotion` | corpus_factory/promotion.py:668-764 | returns the report of the specification, failures appended layer by layer, or refuses a coverage report under the legacy profile |
| `Promotion.ValidateBindings` | corpus_factory/promotion.py:215-245 | resolves every field from the digests observed at the four sources, adding no failure if and only if all sources name the same digest for every field |
| `Promotion.SafetyLayer` | corpus_factory/promotion.py:556-623 | adds no failure if and only if every class meets every one of its thresholds, and says for each class whether it does |
| `Promotion.PassIff` | corpus_factory/promotion.py:668-764 | PASS if and only if one tuple of digests is named throughout and every layer, safety class and edge profile meets its own demands; each layer is marked by its own demands alone |
| `PromotionNumbers.PassIffDeserved` | corpus_factory/promotion.py:51-175 | PASS if and only if the evidence meets every bound, each written out with its number and direction for each class, profile and digest, without the tables |
| `PromotionNumbers.BetterEvidenceStillPasses` | corpus_factory/promotion.py:170-175 | improving any metrics, of any classes and profiles at once, never turns PASS into FAIL |
| `PromotionFailures.FailureListedIff` | corpus_factory/promotion.py:178-665 | the report lists a failure, by code and place, exactly when the evidence has that fault |
| `PromotionFailures.ResolvedIff` | corpus_factory/promotion.py:215-245 | the report names a digest for a field exactly when some source names it and none names another |
| `PromotionFailures.ReportIsOrdered` | corpus_factory/promotion.py:743 | the failures are sorted and as many as the layers found |
| `Promotion.BindingIff` | corpus_factory/promotion.py:215-245 | no binding failure if and only if every source names the same digest for every field |
| `Promotion.CoverageIff` | corpus_factory/promotion.py:371-553 | no coverage failure if and only if the report is sound and covered and release evidence, package and suitability evidence name exactly it |
| `PlannedCoverage.PlannedReportPassesIff` | corpus_factory/promotion.py:371-553 | a coverage report made by the planner passes the coverage gate if and only if every requirement of the mission is covered and the evidence names the report |
| `PlannedCoverage.HonestBundleCoversMission` | corpus_factory/promotion.py:668-764 | an honest governed bundle whose promotion was given a planned coverage report covers every requirement of the mission |
| `Promotion.SafetyIff` | corpus_factory/promotion.py:556-623 | no failure of a safety layer if and only if every class has 50 cases and meets each of its thresholds, with three deterministic runs |
| `Promotion.EdgeIff` | corpus_factory/promotion.py:637-665 | no edge failure if and only if there is a profile and every profile meets every threshold and check |
| `EvaluationAttestation.EvaluatedReportOkIff` | corpus_factory/evaluation_attestation.py:106-126 | a report can be attested exactly when it passed under the governed profile |
| `EvaluationAttestation.PrepareApprovals` | corpus_factory/evaluation_attestation.py:143-185 | accepts exactly approvals by both roles, of distinct identities and groups, apart from executor and signer, not after signing |
| `EvaluationAttestation.FinalizedIff` | corpus_factory/evaluation_attestation.py:188-290 | a prepared and signed statement becomes a record exactly when every approval is inside the validity window and texts have their recorded sizes |
| `EvaluationAttestation.ContractMeansTwoApproved` | corpus_factory/validator.py:236-300 | a valid attestation carries two approvals of different roles, people and groups, apart from executor and signer |
| `EvaluationAttestation.FinalizedIsValidIff` | corpus_factory/evaluation_attestation.py:293-357 | a finalized attestation verifies exactly while it is current and not revoked |
| `EvaluationAttestation.Authorize` | corpus_factory/evaluation_attestation.py:360-413 | an authorization names exactly the report and attestation it was made from |
| `EvidenceMeaning.AttestedIff` | corpus_factory/evaluation_attestation.py:106-266 | a request is prepared exactly when its report passed and its approvals are independent and in time, on the fields |
| `EvidenceMeaning.StatementOnFields` | corpus_factory/evaluation_attestation.py:188-266 | the statement about a passed report says what the request says, field by field, with nothing revoked |
| `EvidenceMeaning.ApprovalsOnFields` | corpus_factory/evaluation_attestation.py:143-185 | its approvals are those of the request with their digests, evaluation owners first, by identity among each role |
| `EvidenceMeaning.PreparedFinalizableIff` | corpus_factory/evaluation_attestation.py:188-290 | a request is prepared, signed with its key and finalized into a record exactly when it is attestable |
| `EvidenceMeaning.FinalizedIsSigned` | corpus_factory/evaluation_attestation.py:275-290 | only the key's own signature on the statement makes a record of it |
| `EvidenceMeaning.AuthorizedIff` | corpus_factory/evaluation_attestation.py:360-413 | an authorization is given exactly for the release of a passed report whose attestation is in force, and is of that release, report and attestation |
| `SigningReplay.SigningReplayStore.Lookup` | corpus_factory/release_signing.py:121-131 | an absent row, the stored record of the same request, or a conflict |
| `SigningReplay.SigningReplayStore.Save` | corpus_factory/release_signing.py:133-144 | inserts once; meeting a row it accepts only the same row |
| `SigningReplay.StepKeepsInv` | corpus_factory/release_signing.py:110-144 | every step of any number of signers keeps rows, held records and returned records in agreement |
| `SigningReplay.OneRecordPerSlot` | corpus_factory/release_signing.py:110-144 | at most one distinct record is ever returned for a slot, however signers interleave |
| `SigningReplay.ReturnedAnswer` | corpus_factory/release_signing.py:257-286 | every returned record, fresh or replayed, answers the call it was returned for |
| `SigningReplay.StoppedCallLeavesNoTrace` | corpus_factory/release_signing.py:257-286 | a call that stops after signing and before the insertion leaves everything as it was, so its repetition is signed afresh |
| `SigningReplay.CallCompletes` | corpus_factory/release_signing.py:257-286 | an uninterrupted call on a free slot ends with its record stored and returned |
| `SigningReplay.RepeatIsReplayed` | corpus_factory/release_signing.py:121-131 | the same call again is given the stored record |
| `ReleaseSigning.ReleaseSigningService.Sign` | corpus_factory/release_signing.py:161-286 | refuses, replays, or signs and stores exactly one record, as `Signing` says |
| `ReleaseSigning.SignedRecordIsValid` | corpus_factory/release_signing.py:289-310 | what passes the checks of signing passes release signature verification |
| `ReleaseSigning.ServiceIsFaithful` | corpus_factory/release_signing.py:222-286 | one statement digest means one candidate and authorization, so a replay answers the later call |
| `ReleaseSigning.EveryReturnedRecordVerifies` | corpus_factory/release_signing.py:257-310 | every record any concurrent signer returns verifies for its candidate and authorization, one record for each authorization and key |
| `EvidenceMeaning.RecordOnlyIfAllowed` | corpus_factory/release_signing.py:161-286 | a record is returned only for a call that may be signed, and no row is ever replaced |
| `EvidenceMeaning.NewRecordIsSigned` | corpus_factory/release_signing.py:261-286 | what a call adds is a record of exactly this call, signed by the key over statement and candidate |
| `EvidenceMeaning.TooOldIsRefused` | corpus_factory/release_signing.py:193-195 | a call past the authorization's maximum age is refused, whatever the table holds |
| `SigningRetries.RetryIsReplayedIff` | corpus_factory/release_signing.py:121-131 | on a slot that holds the record of one call, a later call is replayed if and only if authorization, key record and clock reading are the same, and otherwise conflicts: it is never signed again |
| `SigningRetries.SecondCallGetsRecordIff` | corpus_factory/release_signing.py:161-286 | after a call has returned a record, a later call on its slot gets that record if and only if it passes the checks before the lookup and has the same inputs; any other is refused and nothing changes |
| `SigningRetries.SameRequestLaterIsRefused` | corpus_factory/release_signing.py:246-260 | a signed request repeated at another clock reading is refused |
| `SigningRetries.LaterCallIsReplayedIff` | corpus_factory/release_signing.py:121-144 | in any run of concurrent signers, a call that begins on a slot with a returned record is given it if and only if its inputs are the same, and otherwise changes nothing |
| `SigningRetries.RecordedCallsHaveSameInputs` | corpus_factory/release_signing.py:121-144 | all calls that ever get a record for one authorization and key have the same authorization, key record and clock reading |
| `SigningRetries.RetryOneSecondLaterConflicts` | corpus_factory/release_signing.py:246-260 | a concrete governed request signed at second 10 and repeated at second 11: both pass every check, the second is a conflict |
| `GovernedDistribution.VerifyGovernedRelease` | corpus_factory/governed_distribution.py:125-189 | accepts exactly the bundles of the specification |
| `GovernedDistribution.AcceptedIsGoverned` | corpus_factory/governed_distribution.py:125-189 | an accepted candidate is the exact release of a passing six-layer governed report, attested by a trusted key with two independent approvals, and signed by the release key |
| `GovernedDistribution.AcceptedChainIsUnique` | corpus_factory/governed_distribution.py:125-189 | one accepted release statement fixes candidate, authorization, report and attestation |
| `GovernedDistribution.HonestBundleAcceptedIff` | corpus_factory/governed_distribution.py:125-189 | a bundle made by evaluating, attesting, authorizing and signing is accepted exactly by the verifiers for which it is in force |
| `GovernedDistribution.HonestBundlePassedEveryGate` | corpus_factory/promotion.py:668-764 | the evidence behind an honest bundle met every gate and names this candidate throughout |
| `EvidenceMeaning.AcceptsIff` | corpus_factory/governed_distribution.py:125-189 | candidate and bundle are accepted if and only if report, attestation, authorization and signature are in force and bind one another, every field spelled out |
| `Coverage.FindConflicts` | corpus_factory/coverage.py:201-240 | collects the declared conflicts and the fact collisions of the specification |
| `Coverage.PlanMissionCoverage` | corpus_factory/coverage.py:495-725 | plans exactly a valid mission and registry of one event with distinct classifications, into the report of the specification |
| `CoverageReports.PlanForgetsOrder` | corpus_factory/coverage.py:570-725 | the report is the same for every order of classifications, registry sources and documents with distinct IDs |
| `CoverageReports.PlannableForgetsOrder` | corpus_factory/coverage.py:552-575 | whether inputs are refused does not depend on their order |
| `CoverageReports.CoveredIff` | corpus_factory/coverage.py:580-690 | COVERED exactly when documents agree, every intent is supported by a classification that passes every gate, and sources suffice; CONFLICTED exactly when documents conflict |
| `CoverageMeaning.StatusOnFields` | corpus_factory/coverage.py:580-690 | CONFLICTED exactly when documents disagree, COVERED exactly when they agree and every intent is answered from trusted classifications: each deciding field named, windows included |
| `CoverageMeaning.FindingsAre` | corpus_factory/coverage.py:107-149 | the findings name exactly the sources out of use, each with every reason |
| `CoveragePlan.PlannableIff` | corpus_factory/coverage.py:495-575 | inputs are refused exactly when they are of different missions or events, or something comes twice |
| `CoveragePlan.ListsClassifications` | corpus_factory/coverage.py:580-690 | the report on a requirement lists exactly the classifications of its category, the trusted ones and their sources |
| `CoveragePlan.GapsAre` | corpus_factory/coverage.py:645-683 | the gaps are exactly what is missing, with the figures, and the advice follows the status |
| `CoveragePlan.ConflictsAre` | corpus_factory/coverage.py:201-240 | conflicts are exactly the contests documents of the category declare and the facts they give different values |
| `CoveragePlan.CollisionDocuments` | corpus_factory/coverage.py:201-240 | a collision names exactly the documents that give the fact a value |
| `CoveragePlan.PlanOnFields` | corpus_factory/coverage.py:692-725 | the plan names mission, event, registry and time, counts the requirements of each status and decides by the worst |
| `CoveragePlan.EveryRequirementIsReported` | corpus_factory/coverage.py:570-690 | every requirement of the mission is reported on and nothing else |
| `CoverageReports.PlanMeetsContract` | corpus_factory/validator.py:164-194 | every planned report satisfies the validator: identity, unique IDs, summary and decision |
| `CoverageReports.SummaryAddsUp` | corpus_factory/coverage.py:692-712 | the counts add up and the decision is the worst status |
| `Sourcing.UncoveredIntents` | corpus_factory/sourcing.py:61-78 | reads the uncovered intents back, or refuses an unreadable or foreign gap |
| `Sourcing.BuildSourcingWorkItems` | corpus_factory/sourcing.py:114-232 | builds exactly the first items of the ranked gaps of a valid report aligned with a valid mission |
| `Sourcing.PlannedReportIsBuildable` | corpus_factory/sourcing.py:81-214 | sourcing accepts every planned report |
| `Sourcing.ItemsNameExactlyTheUncovered` | corpus_factory/sourcing.py:140-214 | an item names exactly the required intents that no classification passing every gate supports |
| `Sourcing.MostUrgentFirst` | corpus_factory/sourcing.py:140-155 | nothing left out is more urgent than anything emitted |
| `SourcingMeaning.ItemOnFields` | corpus_factory/sourcing.py:140-214 | an item field by field: requirement, unsupported intents, sources it can count on, and how many more it needs |
| `SourcingMeaning.GapsAreRanked` | corpus_factory/sourcing.py:140-155 | gaps come most severe first, then by category and requirement |
| `SourcingMeaning.GapCodesMean` | corpus_factory/coverage.py:645-667 | when each kind of gap is reported |
| `SourcingMeaning.BuildableIff` | corpus_factory/sourcing.py:81-139 | which reports sourcing takes, on the fields |
| `SourcingMeaning.PlanCounts` | corpus_factory/sourcing.py:215-232 | how many gaps there are and how many were left out |
| `Review.ScanPairs` | corpus_factory/review.py:221-239 | one pass over all pairs leaves under each key the notes of every pair that holds it |
| `Review.EvaluateReviewPolicy` | corpus_factory/review.py:192-257 | refuses an unfit policy, an invalid document or a critical one without separate reviews; otherwise returns the marked documents, all conflicts and the blocked documents |
| `Review.ValidateCriticalReviews` | corpus_factory/review.py:123-189 | accepts exactly documents whose critical ones are reviewed by enough approvals of the required roles, of distinct roles, people and groups |
| `Review.RolesAreIndependent` | corpus_factory/review.py:123-189 | two required roles mean two different people in two different groups who approved exactly this document |
| `Review.OverlapIsCommonInstant` | corpus_factory/review.py:58-65 | two windows overlap exactly when they have an instant in common |
| `Review.PairIsSymmetric` | corpus_factory/review.py:109-120 | clash and winner do not depend on argument order |
| `Review.ScanFindsEveryClash` | corpus_factory/review.py:221-239 | the notes under a key are exactly the clashes of the documents that have it |
| `Review.ConflictsAreClashes` | corpus_factory/review.py:221-239 | the reported conflicts are exactly the clashes of any two documents |
| `Review.MarkedMeans` | corpus_factory/review.py:241-255 | contested with approval withdrawn exactly when one clash of the document, or of one that repeats its key, has no winner, else resolved; facts and everything else unchanged |
| `Review.BlockedMeans` | corpus_factory/review.py:250-257 | blocked are exactly the critical documents this scan leaves contested |
| `Review.VerdictForgetsOrder` | corpus_factory/review.py:212-255 | the verdict on a document does not depend on the order in which the documents arrive |
| `ReviewMeaning.ClashIff` | corpus_factory/review.py:58-107 | two documents clash on a fact exactly when they contradict each other on it: fact, windows, scopes and values on the fields |
| `ReviewMeaning.WinnerIff` | corpus_factory/review.py:109-120 | a document wins exactly when policy allows it, its authority is higher by the gap and it names the other as superseded |
| `ReviewMeaning.ConflictMeans` | corpus_factory/review.py:221-239 | what is reported about a pair, and who won |
| `ReviewMeaning.ReviewedInOrder` | corpus_factory/review.py:209-212 | the documents come out once each, by ID, then revision, then digest |
| `ReviewMeaning.ContestedIff` | corpus_factory/review.py:241-255 | contested exactly when a contradiction of its key has no winner |
| `ReviewMeaning.SeparatelyReviewedIff` | corpus_factory/review.py:123-189 | a critical document passes exactly when enough independent people approved it |
| `ReviewMeaning.ReviewableIff` | corpus_factory/review.py:192-220 | which inputs are scanned at all |
| `Embeddings.NormalizeChunks` | corpus_factory/embeddings.py:130-153 | accepts exactly valid chunks with distinct IDs and sorts them |
| `Embeddings.BuildEmbeddingRecords` | corpus_factory/embeddings.py:202-255 | builds header and records exactly when identity, chunks and every vector are valid |
| `Embeddings.RenderEmbeddingJsonl` | corpus_factory/embeddings.py:258-267 | the header and record lines of what was built, or nothing |
| `Embeddings.ReadEmbeddingJsonl` | corpus_factory/embeddings.py:334-419 | returns exactly the artifact the text stands for, or refuses |
| `EmbeddingRoundTrip.RenderForgetsOrder` | corpus_factory/embeddings.py:258-267 | rendering does not depend on the order of the chunks |
| `EmbeddingRoundTrip.LinesReadBack` | corpus_factory/embeddings.py:258-267 | rendered lines split back exactly when no chunk ID holds a Unicode line separator |
| `EmbeddingRoundTrip.ReadInvertsRender` | corpus_factory/embeddings.py:258-419 | reading what was rendered returns the same sorted records |
| `EmbeddingRoundTrip.SeparatorsCannotBeRead` | corpus_factory/embeddings.py:334-372 | a rendering with a separator in a chunk ID cannot be read at all |
| `EmbeddingRoundTrip.SeparatorExample` | corpus_factory/embeddings.py:258-372 | one chunk whose ID is a line separator: it is rendered, and the rendering cannot be read |
| `EmbeddingRoundTrip.ReadableIff` | corpus_factory/embeddings.py:258-419 | a rendering can be read if and only if no chunk ID holds a Unicode line separator |
| `EmbeddingRoundTrip.ReadMeansBijection` | corpus_factory/embeddings.py:323-419 | reading with expected chunks succeeds only if records and chunks are in bijection with matching content digests |
| `EmbeddingRoundTrip.ReadVectorsAreBound` | corpus_factory/embeddings.py:187-199 | every vector digest read binds its chunk, content and model |
| `EmbeddingMeaning.BuildableIff` | corpus_factory/embeddings.py:88-255 | something is built exactly of a complete identity, well-formed chunks and one acceptable vector for each |
| `EmbeddingMeaning.RenderedOnFields` | corpus_factory/embeddings.py:258-267 | the header line, then one line for each chunk in order of ID, field by field |
| `LineMeaning.SplitLinesIff` | corpus_factory/embeddings.py:334-352 | the lines of a text are the only way to cut it at the line ends of `str.splitlines`, a carriage return and line feed being one |
| `EmbeddingMeaning.ReadsIff` | corpus_factory/embeddings.py:334-419 | text is read as an artifact exactly when every line holds the record of it and digests and chunks are the expected ones |

## Left out

- Fleet.FleetAuthenticator.constructor: takes a positive clock skew, as the source's constructor demands; the error it raises otherwise is not modelled.
- DeploymentReconciliation.DeploymentReconciler.constructor: takes acceptable arguments; `Create` models the refusal of others.
- ReleaseSigning.ReleaseSigningService.constructor: takes an acceptable policy; the error a policy raises otherwise is not modelled.
- ReleaseSigning.ReleaseSigningService.Sign: the key store's two answers are parameters, and a key store that changes the public key behind a key ID is excluded from the theorems about several signers, because the signed statement does not name the public key.
- Review.EvaluateReviewPolicy: keeps the reported conflicts as a multiset, so the order of two that differ only in their winner is not modelled.
- Coverage.PlanMissionCoverage: a sorted list without repetitions is its set, and the report's flat list of conflicts, its fixed automation boundary and the wording of count messages are not modelled.
- Sourcing.BuildSourcingWorkItems: the constant fields of an item (limits, hints, human gates), its description and its own digest are not modelled.
- Promotion.EvaluatePromotion: failure messages and the per-check details of a layer are not modelled, and the order in which the report sorts its failures is a parameter.
- Transfer.VerifyTransferSet: symbolic links, base64 text and rejected duplicate JSON keys are outside the model; texts the format fixes are constructors.
- The ID of a pre-authorization: any non-empty text, of which the texts the program reads as a UUID are a part; the theorems hold for all of them.
- The plaintext carrier's export and the older `plan_coverage` of `coverage.py`: they repeat shapes proved here.
- `prepare_activation_package` and `import_governed_encrypted_transfer`: they copy files around the verifications proved here.
- The privacy filter's message times are kept in memory only, so the rate bounds hold between two restarts, not across one; pattern matching of content is a parameter.
- Low-order X25519 points, AES-GCM and HKDF internals, PEM and JSON decoding: abstract primitives.
- Cross-protocol use of one release key on a statement and on a candidate with equal bytes: messages are typed.
- The byte limit on evidence files, and archive extraction limits.
- Durable rollout control and the offline verification of recovery authorizations: an authorization is taken as verified.
- FastAPI routes, message streams, acquisition, refresh, suitability and hardware sizing: plumbing or one-pass rules.
