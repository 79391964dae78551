# Simfile composed runs: a verified model

Simfile drives a composed run (a paused world, an organization attached to it, and the
evidence both leave) through seventeen durable phases, and everything it claims afterwards
rests on digests of canonical JSON. This project models those parts in Dafny and proves what
they promise. `dafny verify dfyconfig.toml` checks all of it.

## What is modelled

**The lifecycle.** `Contracts` holds the records a run exchanges, `PhaseJournal` and
`OperationRecords` the journal parser and its transitions, `JournalRuns` every interleaving of
them, and `JournalGate` with `Secrets`, `Formats` and `JournalWords` (the actual field names, labels
and forbidden keys) which half of the JSON check can refuse one. `Receipts`, `Chain`, `Steps` and
`Cleanup` hold the checks each stage makes on what a port answers. `DurableRun` is the machine
itself: a class whose methods are the stages of `executeComposedRun` inside
`runDurableComposedRun`. Every port answer, every operation record
that a port writes in between, every clock value, every fault, signal, process death and every
outcome of a journal replacement (refused, written without confirmation, confirmed) is an
arbitrary function of the moment. The proofs hold for all of them.
`Durable` has the simulation between the executor's copy of the journal and the durable one, and
`Completion` says exactly which configurations can complete. Three modules say what all this comes to
without the checks, call builders and receipt builders themselves: `JournalContents` writes an accepted
journal out, `ExpectedReceipts` the receipt that each stage accepts, and `CommittedRun` the whole
history, every call to a port and the terminal receipt.

**Canonical JSON.** `Text` (UTF-16 order), `Numbers` (Number::toString of ECMA-262, section
6.1.6.1.20, and a reader for RFC 8259, section 6) and `JsonText` (strings, arrays and objects of RFC
8259, sections 4 to 7) carry a print/read round trip. On it `CanonicalJson` proves both canonical
printers unambiguous. Both print the shortest text a reader takes for a string and the standard's
form of a number. `JsonGate` is the explicit-stack check of compose over a heap with sharing and
cycles, `JsonShape` and `JsonBytes` what it comes to without stack and counters, `DynamicsBudget`
the copying clone of dynamics with its shared budget, and `RetainedSize` the hand-computed bound on
a retained action record.

**Publication protocols.** `LiveViewer`, `BuildStaging`, `RunRecord` and `JournalSession` are
classes over a file map in which any write may fail at any step; in `LiveViewer` a write that nobody
waits for any more may also take effect at any later step. `OrganizationEvidence` divides an export
among its authorities.

**Build claims.** `StaticGraph` has both reachability passes, `ReceiptLock` the claim order,
`SourceClaims` the matching of inputs and claims.

**The recovery command.** `RecoveryCommand` prints it, splits it as a shell does (sections 2.2.2
and 2.2.3 of the Shell Command Language volume of IEEE Std 1003.1-2017), and parses its arguments.

## What the proofs found

- Marking a journal recoverable fails for exactly three reasons (`JournalGate.MarkFailsExactly`). The
  command may be longer than the 8192 units its schema admits: each single quote in a path costs five
  units, and the command fits exactly when path length + 4 x quotes + run id length is at most 8059
  (`RecoveryCommand.CommandFitsExactly`, `RecoveryCommand.QuotedPathDoesNotFit`). The command may be
  shaped like a secret, as it is for every quote-free path that is, for example `/srv/token=1/j.json`
  (`JournalGate.SecretPathCannotBeMarked`). Or the whole journal may be too large.
- A version 1 journal can never be bound: binding asks for four completed bootstrap operations and
  the parser refuses a version 1 journal that has any (`JournalRuns.VersionOneNeverBinds`).
  Binding recomputes the authority digest but never changes it (`JournalRuns.BindKeepsAuthority`).
- The cleanup correlation is implied by the rest of the lifecycle except for one thing: the up receipt
  must carry the receipt of an attachment that succeeded, and startup admits it without one, with one
  of another operation, and with one that names no result (`Chain.EvidenceCorrelatesExactly`). Both
  evidence exports succeed all the same, and then nothing can be released
  (`Completion.DetachedReceiptStrandsCleanup`).
- Whether a run can complete is settled by its configuration (`Completion.CompletableExactly`). The
  execution schema admits configurations that cannot start: with no member engines, with engine
  names, a world instance or capability identities that no receipt can carry, with a release version
  that does not describe its revision, with repeated manifests or with capabilities out of order. One
  such engine name is `sk-aaaaaaaaaaaaaaaa`: the secret check passes it as a key of the expectation and
  refuses it as the value that an up receipt has to name it by (`JournalWords.KeyThatIsNoValue`).
- Two more conditions are first compared at cleanup: that the two deployment names agree, and that the
  organization expectation names the digest of the topology's target, under some version and further
  fields. A configuration that fails one goes through both exports and then can never release a handle
  (`Completion.MismatchStrandsCleanup`). `composedRunConfiguration` makes the names agree.
- The digest covers every field of the selected target that a preparation reports, the checks before it
  only the fingerprint and the handle. So under a runnable configuration a preparation with one field
  more than expected is accepted, goes through both exports, and is stranded as well
  (`Completion.FurtherFieldStrandsCleanup`, `Chain.OwnershipDerivesExactly`).
- A failed publication may leave a restoration in flight when it reports its failure: of the two begun
  together only the first to fail is waited for. A restored ledger or restored frames that land later
  are harmless exactly when they are still what was published last (`LiveViewer.LandingKeepsExactly`);
  landing before the next declaration they spoil it exactly when they displace its ledger or frames
  (`LiveViewer.DeclarationKeepsExactly`). Otherwise a declaration ends up over an older ledger
  (`LiveViewer.LateLedgerBreaksDeclaration`), or a transient file is back after the projection was
  closed (`LiveViewer.LateLedgerSurvivesClosing`).
- A journal session reads no file over 16,777,216 bytes, but a replacement is not measured before the
  rename. The compose check counts the bytes of a string as they are, the file holds them escaped
  (`JsonBytes.AcceptedTextOutgrowsTheFile`), so a journal can be swapped in that no session can open
  again (`JournalSession.OversizedJournalLocksOut`).
- The runtime pass looks up sources by the resolver's name, the preflight keys them by the validated
  name. Its "not preflighted" error is reachable exactly when the resolver names a file otherwise than
  validation does, say with a detour through a parent directory
  (`StaticGraph.RuntimeNeedsCanonicalNames`, `StaticGraph.DottedNameIsNotAKey`), and never with a
  resolver that normalizes (`StaticGraph.NormalNamesAreKeys`).
- In the compose JSON check the bytes of keys count only at the next string popped, so the limit holds
  for all but the keys after the last string (`JsonBytes.OverByTrailingKeys`), and a value whose keys
  alone exceed it is accepted when no string follows (`JsonGate.KeyBytesAreNotTested`). The total is
  within the limit exactly if the check also accepts with an empty string popped last
  (`JsonBytes.WithinLimitExactly`).
- Sorting before `Object.fromEntries` does not give text order: keys that are array indices come
  first, by number (`CanonicalJson.IndicesAreNotSortedAsText`). The text is unambiguous all the same.
- An intent recorded again for the same request gets a new identity, yet the lookup goes on finding
  the first record (`OperationRecords.SecondIntentIsShadowed`).
- A seal that fails after it wrote `inventory.json` cannot be repeated in the same record, because
  the exclusive open refuses the name the second time; nor can a record be sealed that holds an
  artifact below a directory of that name. Both are listed reasons for a refusal of
  `RunRecord.Record.Seal`.
- The authority checks on an organization's export refuse what the builder produces exactly when an
  optional file is listed twice, or Moltnet or Daimon is represented by nothing
  (`OrganizationEvidence.BuiltReceiptParses`).
- Two completed runs over the same answers have the same receipt but for the digest of the journal,
  which holds the times (`DurableRun.CompletedSchedulesAgree`).

## Assumptions

Digests are free constructors over a domain and a content: SHA-256 is taken to be free of
collisions, and the 128-bit truncation inside idempotency keys keeps them distinct. "Settled"
answers, where a statement asks for them, mean that a port gives the same answer to the same call
or fails. "Undisturbed" asks for a clock that does not go back, no fault, signal or failed write, and
that the JSON check has room for the journals this very run can come to propose; it says nothing
about other journals. Where a configuration and a receipt ask for the same format of a name, the
format is taken as met; where they differ it is part of the statement. File modes, owners and link
counts are left to abstract predicates.

## Model

| member | source | states |
|---|---|---|
| `PhaseJournal.AppendSucceedsExactly` | src/compose/journalTransitions.ts:19-45 | appending the next phase to an accepted journal is refused only for a clock that went back or by the JSON gate on the new journal; nothing else in the closing parse can fail |
| `PhaseJournal.ReplayIsIdempotent` | src/compose/journalTransitions.ts:28-34 | re-appending a phase already reached returns the journal unchanged exactly when the payload is the recorded one, and is refused otherwise |
| `PhaseJournal.MarkSucceedsExactly` | src/compose/journalTransitions.ts:81-94 | an unfinished journal can be marked recoverable exactly when the command has a length the schema admits and the JSON gate passes the marked journal; the mark names the next phase and changes nothing else |
| `PhaseJournal.IntentSucceedsExactly` | src/compose/operationJournal.ts:6-24 | a target operation is recorded exactly while there is room, for a request of this run, behind open gates |
| `PhaseJournal.CheckEntries` | src/compose/journalValidation.ts:83-96 | the loop accepts exactly entries in phase order, of this run, with true payload digests and times that never go back |
| `PhaseJournal.CheckOperations` | src/compose/journalValidation.ts:98-122 | the two loops accept exactly the operation records that carry their own index, digests and identity, a receipt if and only if completed, and bootstrap kinds in order |
| `PhaseJournal.GenesisSucceedsExactly` | src/compose/journalGenesis.ts:30-51 | a plain journal can be started exactly without an execution or with one that fits the request, behind open gates |
| `PhaseJournal.BootstrapGenesisSucceedsExactly` | src/compose/journalGenesis.ts:54-77 | a bootstrap journal can be started exactly under a capsule of the same run, behind open gates |
| `JournalContents.ValidExactly` | src/compose/journalValidation.ts:124-163 | the parser accepts a journal exactly if it is written so: every entry, operation, binding and state in it, and every digest, identity and sequence, is the one that follows from its request, payloads and requests |
| `JournalContents.GenesisWrites` | src/compose/journalGenesis.ts:30-51 | a plain genesis journal, field by field |
| `JournalContents.BootstrapGenesisWrites` | src/compose/journalGenesis.ts:54-77 | a bootstrap genesis journal, field by field |
| `JournalContents.AppendWrites` | src/compose/journalTransitions.ts:35-45 | an append adds the entry of that phase, fact and time under its digest, clears the interruption, and completes the journal exactly at the last phase; nothing else changes |
| `JournalContents.IntentWrites` | src/compose/operationJournal.ts:6-24 | an intent adds one record under its digests and identity, numbered by its place |
| `JournalContents.BootstrapIntentWrites` | src/compose/bootstrapOperationJournal.ts:36-62 | a bootstrap intent adds the record of the kind whose turn it is |
| `JournalGate.SecretHalf` | src/compose/json.ts:67-83 | for every spelling whose own words are free of secrets, as the actual ones are, the secret half of the gate looks at a journal part by part: only the request, payloads, operation requests and receipts, the bound parts and the recovery command can fail it |
| `JournalGate.AppendFailsOnlyForSize` | src/compose/journalTransitions.ts:19-45 | appending the next phase with a checked payload fails exactly for a clock that went back or the size of the whole journal, never for a secret |
| `JournalGate.MarkFailsExactly` | src/compose/journalTransitions.ts:81-94 | a mark fails exactly for a command that is empty or too long, one shaped like a secret, or the size of the whole journal |
| `JournalGate.SecretPathCannotBeMarked` | src/compose/recovery.ts:174-179 | under a quote-free path shaped like a secret no journal can be marked recoverable |
| `JournalGate.TokenPathIsAdmitted` | src/compose/receipt.ts:22-23 | there is such a path that the schema admits, with a command that is short enough |
| `Secrets.EmbeddedSecret` | src/compose/json.ts:10 | a secret that does not start its text is one inside every longer text |
| `Secrets.PlainIsNoSecret` | src/compose/json.ts:10 | a text without white space or equals sign that lacks a dash, an s or a k is no secret |
| `Secrets.SixteenUnits` | src/compose/json.ts:10 | letters behind sk- are a secret exactly from sixteen on |
| `Secrets.Assignment` | src/compose/json.ts:10 | password or token, white space or none, and an equals sign are a secret |
| `Secrets.BearerToken` | src/compose/json.ts:10 | so is Bearer, white space and one unit more |
| `JournalWords.LabelsAreNoSecrets` | src/compose/journalSchema.ts:12-15 | no label of a journal is shaped like a secret: phases, states, signals, operation states and kinds, or the version labels with their s and dashes |
| `JournalWords.FieldsAreAllowed` | src/compose/json.ts:9 | no field name of a journal is a forbidden key, however its case folds |
| `JournalWords.ForbiddenExactly` | src/compose/json.ts:9 | a key is forbidden exactly if it is one of the eight words, each letter in either case, or a long s or a Kelvin sign for s and k |
| `JournalWords.ActualIsHarmless` | src/compose/json.ts:67-83 | so the spelling with these words, and with digests, times and names in their formats, meets the condition under which the gate theorems hold |
| `JournalWords.ActualSpelling` | src/compose/journalSchema.ts:17-40 | and there is such a spelling |
| `JournalWords.KeyThatIsNoValue` | src/compose/json.ts:74-80 | a name in the run id format that passes the secret check as a key and fails it as a value |
| `OperationRecords.ObservationSucceedsExactly` | src/compose/operationJournal.ts:25-35 | an observation is accepted exactly for a record not yet completed, with a receipt if and only if it completes; that record and no other changes |
| `OperationRecords.LookupFindsTheObservation` | src/compose/operationJournal.ts:21-40 | after the first intent for a request and an observation of it, looking up that request finds the observed record |
| `OperationRecords.SecondIntentIsShadowed` | src/compose/operationJournal.ts:36-40 | a second intent for the same request has a new identity, and the lookup keeps finding the first |
| `OperationRecords.IdentitiesDiffer` | src/compose/operationJournal.ts:11-19 | no two records of one journal share an operation identity |
| `OperationRecords.BootstrapIntentSucceedsExactly` | src/compose/bootstrapOperationJournal.ts:36-62 | a bootstrap operation is recorded exactly in its turn, after all before it completed, and the fifth exactly when the execution is bound |
| `OperationRecords.BootstrapObservationSucceedsExactly` | src/compose/bootstrapOperationJournal.ts:64-83 | only the last bootstrap operation, uncompleted, can be observed, and only its state and receipt change |
| `OperationRecords.BindSucceedsExactly` | src/compose/journalTransitions.ts:48-79 | binding succeeds exactly on an unbound version 2 journal at its first phase with four completed bootstrap operations and no others, for a fitting execution and a binding that seals them; it adds these two fields only |
| `JournalRuns.BindKeepsAuthority` | src/compose/journalTransitions.ts:64-68 | binding leaves the authority digest as it was |
| `JournalRuns.BindKeeps` | src/compose/journalTransitions.ts:48-79 | a bound journal is accepted again and extends the one before it |
| `JournalRuns.StepTakes` | src/compose/journalTransitions.ts:19-94 | a step of a run takes any of the seven transitions that succeeds |
| `JournalRuns.RunKeeps` | src/compose/journalTransitions.ts:19-94 | every interleaving of append, bind, mark and operation records keeps the journal accepted and only extends it: entries, identities and completed records stay |
| `JournalRuns.EveryRunFromGenesis` | src/compose/journalGenesis.ts:30-77 | from either genesis journal, over every run: request, nonce, authority and first entry never change, sequence equals index, bootstrap kinds come in order, and at most one binding happens |
| `JournalRuns.GenesisStarts` | src/compose/journalGenesis.ts:30-77 | either genesis journal is accepted and holds the request, unbound and without records, and nothing else |
| `JournalRuns.BindsAtMostOnce` | src/compose/journalTransitions.ts:52-60 | no run binds twice, and none binds a journal that is bound already |
| `JournalRuns.CompletedRecordsAreImmutable` | src/compose/operationJournal.ts:25-35 | a completed operation record is the same record after every run |
| `JournalRuns.VersionOneNeverBinds` | src/compose/journalValidation.ts:145-147 | no run binds a version 1 journal |
| `JournalRuns.ObservationKeeps` | src/compose/operationJournal.ts:25-35 | an accepted observation extends the journal and keeps it accepted |
| `JournalRuns.BootstrapIntentKeeps` | src/compose/bootstrapOperationJournal.ts:36-62 | so does a bootstrap intent; the order of binding and last operation holds on |
| `JournalRuns.BootstrapObservationKeeps` | src/compose/bootstrapOperationJournal.ts:64-83 | so does a bootstrap observation |
| `Chain.ChainSurvivesStages` | src/compose/activation.ts:254-303 | in a journal whose payloads were each accepted on the strength of those before, no check that a stage repeats on committed payloads or on its configuration can fail: readiness, capabilities, attestation, activation, tick range, running, terminal, pause and evidence |
| `Chain.StartupSurvives` | src/compose/startup-world.ts:119-126 | the same for the preparation, world and organization stages |
| `Chain.ChainPassesTerminalCrossCheck` | src/compose/run.ts:160-175 | the cross-check before the terminal receipt never fires |
| `Chain.EvidenceCorrelatesExactly` | src/compose/cleanup.ts:185-219 | the evidence correlation before cleanup holds exactly when the up receipt carries the receipt of an attaching operation with a result, and the two deployment names agree |
| `Chain.ConfiguredEvidenceCorrelates` | src/compose/execution.ts:128-136 | under the configuration an execution gives, exactly when that receipt is there, of that operation, with a result |
| `Chain.OwnershipDerivesExactly` | src/compose/cleanup.ts:143-183 | ownership can be derived exactly when that receipt is there, of that operation, with a result, the expectation names the digest of the selected target as it was reported prepared, further fields and all, and the seven handles differ |
| `Chain.CompletedReceiptFromJournal` | src/compose/run.ts:88-107 | the durable journal of a completed run gives back the receipt that the executor computed |
| `CommittedRun.TerminalSums` | src/compose/run.ts:187-222 | every field of the terminal receipt from the committed bodies: the inventories and their counts under the right authority, cleanup, seal, verdict, preparation, target, activation and topology |
| `CommittedRun.CompletedReceiptSays` | src/compose/run.ts:88-107 | the receipt of a completed journal says all that, over the digest of its first sixteen entries, and is sealed |
| `Chain.LinkedGrows` | src/compose/run.ts:240-302 | a payload that was accepted on the strength of the ones before it makes the chain one longer |
| `Steps.AcceptedLinks` | src/compose/startup-world.ts:127-172 | an answer that a stage accepts continues the chain |
| `ExpectedReceipts.AcceptedExactly` | src/compose/startup-world.ts:127-172 | at every phase an answer is accepted exactly if it is the expected receipt, written out field by field from request, configuration and committed receipts, and what is committed carries it under its digest |
| `ExpectedReceipts.PreparationExactly` | src/compose/run.ts:114-134 | the preparation of this request and target, with four different handles |
| `ExpectedReceipts.ResourceExactly` | src/compose/startup-world.ts:133-138 | the world resource names this run, the committed preparation, artifact and bundle |
| `ExpectedReceipts.ServiceExactly` | src/compose/startup-world.ts:149-152 | the world service names this run and the committed resource |
| `ExpectedReceipts.ReadinessExactly` | src/world-artifact/readiness.ts:140-166 | the readiness is the expected one of this run, its manifests ascending and a permutation of the expected ones, its names fit for a receipt |
| `ExpectedReceipts.UpExactly` | src/compose/startupOrganizationReceipt.ts:88-122 | the up receipt names run, deployment, release, engines and handoff of the expectation, and when readiness is asked for the record of its own fingerprint and the expected unit |
| `ExpectedReceipts.AttestationExactly` | src/compose/activation.ts:203-222 | the attestation names request, run, both phases and the topology of the expected target |
| `ExpectedReceipts.ActivationExactly` | src/compose/activation.ts:224-240 | the activation names the attestation and, in its marker, artifact, run and topology |
| `ExpectedReceipts.TickExactly` | src/compose/activation.ts:301-318 | the first tick names activation and world phase and is followed by the next tick |
| `ExpectedReceipts.TerminalExactly` | src/compose/supervision.ts:121-128 | the terminal receipt names the running one and ends completed at the configured tick |
| `ExpectedReceipts.PauseExactly` | src/compose/finalize-world.ts:176-181 | the pause names service and terminal and its tick |
| `ExpectedReceipts.WorldEvidenceExactly` | src/compose/finalize-world.ts:199-203 | the world evidence names pause and service and digests an inventory in strict order with all three authorities |
| `ExpectedReceipts.ExportExactly` | src/compose/finalize-organization.ts:147-209 | an export gives evidence exactly if it is of this run and deployment, complete and exportable, and the evidence then names the organization phase |
| `CommittedRun.MayCallExactly` | src/compose/activation.ts:257-265 | the topology is asked for exactly if the last capability of each name that the request needs has an attested manifest |
| `CommittedRun.LinkedIsWoven` | src/compose/run.ts:240-302 | every payload of a linked history is the expected one after those before it: the receipts name each other as listed, with no check of a stage in the statement |
| `CommittedRun.CallsAreDerived` | src/compose/startup-world.ts:128-148 | every call is made at its phase, under the key of its operation, of the committed receipts; a cleanup call tells its operation exactly its handles and those that no earlier one released |
| `Steps.FaithfulRunsAgree` | src/compose/run.ts:228-304 | two histories over the same settled answers agree as far as both go |
| `Steps.CompletedRunsAgree` | src/compose/run.ts:136-225 | two completed histories over the same answers agree to the terminal receipt, but for the journal digest in it |
| `Steps.KeyDeterminesCall` | src/compose/startup-world.ts:96-99 | a mutating key depends on operation and request only, and one key always carries the very same call, at the same phase |
| `Steps.CleanupFollowsExports` | src/compose/cleanup.ts:256-263 | a cleanup call is made only with both evidence exports durable |
| `Steps.CallsHandOverVerified` | src/compose/activation.ts:292-316 | what a call hands to a port was verified for this run before |
| `Durable.RecordedKeeps` | src/compose/recovery.ts:147-158 | operation records that ports write extend the durable journal and leave its lifecycle alone |
| `Durable.AppendedStayInStep` | src/compose/recovery.ts:149-155 | re-applying only the newest entry to the durable copy keeps it in step with the executor's |
| `Durable.AdmittedAppends` | src/compose/recovery.ts:153-155 | when the JSON gate admits the payload and the two journals that come of it, both copies refuse an append together, and only for a clock that went back |
| `Durable.GrownKeeps` | src/compose/phase.ts:34-44 | a committed payload that may follow keeps the journal accepted, chained and extended, and all calls made so far permitted |
| `Durable.MarkedIsChained` | src/compose/recovery.ts:174-182 | the marked journal keeps entries, phase and authority, names the next phase, and is fit for resumption |
| `DurableRun.ComposedRun.Ask` | src/compose/run.ts:240-244 | a port is called only for the phase after the last durable one, and its answer is handed on unless it threw; the records it writes are those it recorded, and they lose nothing |
| `DurableRun.ComposedRun.Tick` | src/compose/recovery.ts:123-126 | of the signals that arrive the first one is remembered |
| `DurableRun.ComposedRun.Replace` | src/compose/journalSession.ts:105-126 | the durable journal is the old one or the new one, whatever fails |
| `DurableRun.ComposedRun.Persist` | src/compose/recovery.ts:147-158 | persisting keeps both copies in step and the chain intact; without disturbance it succeeds |
| `DurableRun.ComposedRun.Commit` | src/compose/phase.ts:34-44 | on success the durable history is one payload longer, recorded at the time of the commit, and the boundary after it met no fault and no signal; a failure is never a refusal |
| `DurableRun.ComposedRun.Boundary` | src/compose/recovery.ts:136-139 | passes exactly if nothing comes up and no signal is remembered; a thrown signal is the remembered one |
| `DurableRun.ComposedRun.BothAppend` | src/compose/recovery.ts:147-155 | in an undisturbed run whose journals the gate has room for, no commit is refused, in either copy |
| `DurableRun.ComposedRun.Admitted` | src/compose/phase.ts:34-40 | what a commit proposes is one of the journals that the run can come to propose |
| `DurableRun.ComposedRun.Obtain` | src/compose/startup-world.ts:128-138 | at most one call; its answer is refused exactly if it is not the expected receipt written out, or not asked for exactly if a capability is withheld; a refusal is final for the settled answers |
| `DurableRun.ComposedRun.Advance` | src/compose/startup-world.ts:127-172 | one phase: refused exactly as that says; on success the history is one payload longer, and that carries the answer |
| `DurableRun.ComposedRun.StartWorld` | src/compose/startup-world.ts:107-175 | from prepared to world ready, resuming wherever the journal is |
| `DurableRun.ComposedRun.StartOrganization` | src/compose/startup-organization.ts:35-77 | from world ready to organization ready, likewise |
| `DurableRun.ComposedRun.ActivateTopology` | src/compose/activation.ts:243-318 | from organization ready to the first tick, likewise |
| `DurableRun.ComposedRun.CommitRunning` | src/compose/supervision.ts:91-105 | the running receipt is computed without a call |
| `DurableRun.ComposedRun.Supervise` | src/compose/supervision.ts:73-134 | from the first tick to the terminal one |
| `DurableRun.ComposedRun.FinalizeWorld` | src/compose/finalize-world.ts:150-209 | pauses the world, then exports its evidence |
| `DurableRun.ComposedRun.FinalizeOrganization` | src/compose/finalize-organization.ts:229-267 | exports the organization's evidence only after the world's is durable |
| `DurableRun.ComposedRun.ReleaseHandles` | src/compose/cleanup.ts:264-302 | the five operations, each told its own handles (`CommittedRun.CallsAreDerived` over its calls); on an error the named handles and those released by believed receipts together are all that was owned, each once |
| `DurableRun.ComposedRun.CleanUp` | src/compose/cleanup.ts:249-315 | from both exports to cleaned |
| `DurableRun.ComposedRun.CompleteRun` | src/compose/run.ts:299-303 | the terminal receipt it returns is the one the durable journal alone reproduces, and each of its fields is the one that the committed bodies give |
| `DurableRun.ComposedRun.Execute` | src/compose/run.ts:228-304 | from any phase to completion, with that receipt, or an error; an undisturbed execution stops only at a refused answer |
| `DurableRun.ComposedRun.Recover` | src/compose/recovery.ts:164-196 | a completed durable journal yields the completed receipt whatever went wrong; otherwise the outcome names the successor of the durable phase, the run, the command and the first signal that arrived, or failure if none did, and the mark is all that changes |
| `DurableRun.ComposedRun.Mark` | src/compose/recovery.ts:174-196 | marks the durable journal with that signal and makes up the recovery receipt from it |
| `DurableRun.ComposedRun.RunDurable` | src/compose/recovery.ts:117-201 | one process: it is turned away exactly for a wrong authority, hears signals from its own start on and reports the first, exposes the boundary of a created journal before anything else, reports from durable state, and undisturbed either completes or was refused for good |
| `DurableRun.ComposedRun.Campaign` | src/compose/recovery.ts:204-208 | any number of processes, each cut short anywhere: completion from phase index k takes exactly 16 - k further commits, and the authority never changes |
| `DurableRun.ComposedRun.EffectsAtMostOnce` | src/compose/run.ts:240-298 | over the whole log of calls, equal mutating keys belong to equal calls, and no cleanup call precedes both durable exports |
| `DurableRun.LoggedCallsAreDerived` | src/compose/run.ts:240-298 | over every process, every logged call is derived from the committed receipts |
| `DurableRun.HistoryIsWoven` | src/compose/run.ts:240-302 | and every committed payload is the expected one |
| `DurableRun.SchedulesAgree` | src/compose/run.ts:228-304 | crash transparency: two runs over the same settled answers, under any two schedules of crashes and resumes, commit the same payloads |
| `DurableRun.CompletedSchedulesAgree` | src/compose/run.ts:94-107 | and, completed, reproduce the same receipt but for the journal digest |
| `Completion.CompletableExactly` | src/compose/run.ts:228-304 | there are port answers that lead a run through cleanup exactly when its configuration is in range, expects what a world and an organization can report under their schemas and the secret check, agrees with the request, has one deployment name, and expects the digest of the topology's target under some version and further fields |
| `Completion.OnlyRunnableCompletes` | src/compose/cleanup.ts:156-169 | no schedule of answers, crashes and resumes completes any other run |
| `Completion.HonestPortsNeverStall` | src/compose/run.ts:240-298 | ports that answer what they are asked for meet no refusal up to both exports, and none at cleanup exactly if the deployment names agree, the expected digest is that of the target with the fields they report, and the up receipt carries the receipt of an attachment that succeeded |
| `Completion.RunnableMeansCleanable` | src/compose/cleanup.ts:156-169 | a configuration that can start is runnable exactly when some attachment and some further target fields make its handles releasable |
| `Completion.MismatchStrandsCleanup` | src/compose/cleanup.ts:156-168 | otherwise, whatever the reason, the run goes through both exports and is then refused for good |
| `Completion.FurtherFieldStrandsCleanup` | src/compose/run.ts:129-130 | so it does under every runnable configuration when the preparation reports the target with other further fields than expected |
| `Completion.DetachedReceiptStrandsCleanup` | src/compose/cleanup.ts:63-76 | so it does under every runnable configuration when the target receipt is of a detachment, or of an attachment without a result |
| `Completion.ReportableExactly` | src/world-artifact/readiness.ts:69-90 | the expected readiness is one that a world can report exactly when its manifests are there and distinct, its capabilities ascend and are attested, and its names have the reported format and are not shaped like secrets |
| `Completion.FittingUpIsReportable` | src/compose/startupOrganizationReceipt.ts:41-52 | an up receipt fits only an expectation with engines, under names that have the reported format and are not shaped like secrets, and with a release that describes its revision |
| `Completion.FinishUndisturbed` | src/compose/recovery.ts:133-163 | from any phase, an undisturbed process over such ports, a configuration that can start and answers under which the handles can be released, finishes, and the durable journal reproduces its receipt |
| `Completion.FaithfulIsLinked` | src/compose/run.ts:240-298 | what settled answers determine is a linked chain |
| `Cleanup.NothingRemains` | src/compose/cleanup.ts:302 | after five fitting operations nothing remains; the closing test never fires |
| `Cleanup.FitConserves` | src/compose/cleanup.ts:285-301 | at each step released and remaining handles partition what was owned |
| `Cleanup.BelievedConserves` | src/compose/cleanup.ts:295-300 | a stopped cleanup names exactly the handles no believed receipt released |
| `Cleanup.AcceptedConserves` | src/compose/cleanup.ts:286-296 | one believed receipt keeps the partition |
| `Cleanup.EachHandleReleasedOnce` | src/compose/cleanup.ts:269-301 | a finished cleanup released every owned handle exactly once and nothing else |
| `Cleanup.ReleasableRemains` | src/compose/cleanup.ts:233-242 | no operation is asked to release what an earlier one released |
| `Cleanup.ReleasingOperation` | src/compose/cleanup.ts:233-242 | every owned handle has an operation that releases it |
| `Cleanup.OperationExactly` | src/compose/cleanup.ts:285-301 | the check of an operation that finishes passes exactly for the receipt of that operation, ownership and run, with its targets, what it releases, and what is then left, each ascending |
| `Cleanup.RemainingIs` | src/compose/cleanup.ts:267-294 | what is left before each operation, handle by handle |
| `Cleanup.TargetsAre` | src/compose/cleanup.ts:233-242 | what each operation acts on: the service to stop, one handle each to detach, take down and revoke, and the four target resources |
| `Numbers.ReadOfPrint` | src/compose/json.ts:85-96 | reading a printed number gives it back, but for the sign of zero |
| `Numbers.ExponentByRange` | src/compose/json.ts:85-96 | a number has an exponent exactly when it is below 1e-6 or at least 1e21 |
| `Numbers.ShortestDecimal` | src/compose/json.ts:85-96 | without one no text of the number is shorter than the printed one |
| `Numbers.ExponentForm` | src/compose/json.ts:85-96 | with one there is one digit before the point, and the exponent has its sign and no leading zero |
| `JsonText.ReadOfQuote` | src/compose/json.ts:85-96 | a quoted string reads back as itself, lone surrogates and all |
| `JsonText.ShortestBody` | src/compose/json.ts:85-96 | of all bodies without half a surrogate pair that read as a string, the printed one is the shortest, and the only shortest in lower case: short escapes where there are any, units as they are where allowed |
| `JsonText.PrintedIsPaired` | src/compose/json.ts:85-96 | what is printed has no half of a surrogate pair |
| `JsonText.PrintedIsLower` | src/compose/json.ts:85-96 | and its escapes are in lower case |
| `JsonText.ReadOfPrint` | src/compose/json.ts:85-96 | any printed value reads back as itself whatever follows that cannot lengthen a number |
| `JsonText.ListWritten` | src/compose/json.ts:85-96 | a list of literals, spelled out |
| `JsonText.RecordWritten` | src/compose/json.ts:85-96 | an object, spelled out |
| `CanonicalJson.ComposedIsUnambiguous` | src/compose/json.ts:85-96 | two values print the same text exactly when they are equal up to key order and the sign of zero |
| `CanonicalJson.ComposedIsStable` | src/compose/json.ts:85-96 | the text parses to an equivalent value that prints the same text |
| `CanonicalJson.ComposedIsNormalText` | src/compose/json.ts:89-95 | the recursive printer prints the normal form of its value |
| `CanonicalJson.DynamicsIsUnambiguous` | src/dynamics/canonicalJson.ts:110-112 | the dynamics text is the same exactly for equivalent values |
| `CanonicalJson.DynamicsIsStable` | src/dynamics/canonicalJson.ts:56-112 | parsing and printing again changes nothing |
| `CanonicalJson.EquivalentValuesNormalizeAlike` | src/dynamics/canonicalJson.ts:56-79 | the normal form does not depend on the order of input keys |
| `CanonicalJson.EqualNormalFormsAreEquivalent` | src/dynamics/canonicalJson.ts:56-79 | and nothing but key order and the sign of zero is lost in it |
| `CanonicalJson.IndicesAreNotSortedAsText` | src/dynamics/canonicalJson.ts:56-79 | "9" comes before "10" in the dynamics text and after it in the compose text |
| `CanonicalJson.NormalFormIsOrdered` | src/dynamics/canonicalJson.ts:77-78 | at every depth members are in order: by UTF-16 code units, or array indices by number and then the other keys |
| `CanonicalJson.ArrayIndexExactly` | src/dynamics/canonicalJson.ts:78 | a key is an array index exactly if it is the decimal text of a number below 4294967295 |
| `Text.LessExactly` | src/dynamics/canonicalJson.ts:77 | one text is before another exactly if it has the smaller unit, or has ended, where they first differ |
| `JsonGate.CheckOrdinary` | src/compose/json.ts:12-65 | the stack loop accepts exactly what a recursive, depth-first reading accepts |
| `JsonShape.AcceptedGraphs` | src/compose/json.ts:12-65 | for every graph: accepted exactly if it is JSON of fine objects in at most 33 levels, meets no object twice and no more than 4096, and at every string the bytes so far are within the limit |
| `JsonShape.FineExactly` | src/compose/json.ts:39-63 | an object is fine exactly if it is no proxy, of a standard prototype, with at most 256 own properties, all enumerable values under texts, and an array has its elements and length and no more |
| `JsonShape.AsciiAccepted` | src/compose/json.ts:8 | a string of ASCII is accepted exactly up to 6,291,456 units |
| `JsonShape.BytesByRange` | src/compose/json.ts:21 | the bytes of a unit and of a pair by range |
| `JsonGate.VisitInTurn` | src/compose/json.ts:12-65 | the stack visits each subtree as one uninterrupted stretch, the later sibling first |
| `JsonGate.EverySubvalueIsAccepted` | src/compose/json.ts:85-96 | every value below an accepted one is accepted on its own |
| `JsonGate.OnePathToEachObject` | src/compose/json.ts:30-32 | an accepted value has no cycle and shares no object |
| `JsonGate.CanonicalOfAccepted` | src/compose/json.ts:85-96 | no nested re-check of the printer fails on an accepted value |
| `JsonGate.AcceptedGraphsPrintUnambiguously` | src/compose/json.ts:85-96 | accepted object graphs, whose objects have no key twice, print the same text exactly when they denote equivalent values |
| `JsonGate.TreeIsPlain` | src/compose/json.ts:85-96 | what a graph denotes has no key twice, because none of its objects has |
| `JsonGate.KeyBytesAreNotTested` | src/compose/json.ts:55-63 | a value that the limit does not hold back: one key of any length, and no string after it |
| `JsonGate.KeyBytesCountAtTheNextString` | src/compose/json.ts:20-23 | and with one string after it the same key counts in full |
| `JsonBytes.AcceptedExactly` | src/compose/json.ts:12-65 | for every graph: it is accepted exactly when it is without its texts, and at every string, in visit order, the bytes of all strings and keys so far are within the limit |
| `JsonBytes.OverByTrailingKeys` | src/compose/json.ts:20-23 | the bytes of an accepted value are within the limit but for the keys after its last string in visit order |
| `JsonBytes.WithinLimitExactly` | src/compose/json.ts:55-63 | all its bytes are within the limit exactly if the check also accepts with an empty string popped last |
| `JsonBytes.AcceptedTextOutgrowsTheFile` | src/compose/journalSession.ts:60-64 | an accepted string whose printed form is larger than any journal file that can be read |
| `JsonGate.CheckSecretFree` | src/compose/json.ts:67-83 | the second stack loop accepts exactly values without a forbidden key or secret-shaped text anywhere |
| `DynamicsBudget.CloneIsExact` | src/dynamics/canonicalJson.ts:81-97 | from any shared budget the clone succeeds exactly when the cost of the value still fits, and then is its normal form and spends that cost |
| `DynamicsBudget.FreshCopyIsExact` | src/dynamics/canonicalJson.ts:99-100 | a fresh clone succeeds exactly when the value has at most 4096 nodes and 65,536 code units and no part that is refused anyway |
| `DynamicsBudget.ScalarsCopied` | src/dynamics/canonicalJson.ts:11-30 | a string may have 16,384 units and a value lie 24 levels deep, no more |
| `DynamicsBudget.DangerousKeys` | src/dynamics/canonicalJson.ts:4 | the three keys that are refused, spelled out |
| `DynamicsBudget.SwappedPropertiesCostTheSame` | src/dynamics/canonicalJson.ts:56-79 | the order of properties does not change what a value costs |
| `DynamicsBudget.Budget.ConsumeString` | src/dynamics/canonicalJson.ts:11-20 | charges a string once, or refuses |
| `DynamicsBudget.Budget.ConsumeNode` | src/dynamics/canonicalJson.ts:22-30 | charges one node, or refuses it by depth or count |
| `DynamicsBudget.CloneArray` | src/dynamics/canonicalJson.ts:32-54 | the filling loop computes what the recursive clone of the elements does, on the shared budget |
| `DynamicsBudget.CloneObject` | src/dynamics/canonicalJson.ts:56-79 | likewise for properties |
| `DynamicsBudget.CloneValue` | src/dynamics/canonicalJson.ts:81-97 | likewise for any value |
| `DynamicsBudget.CloneDynamicsJson` | src/dynamics/canonicalJson.ts:99-100 | the copy exists exactly within the limits and is the normal form |
| `RetainedSize.RecordCodeUnitsIs` | src/dynamics/limits.ts:25-49 | the constant computed from the printed shapes is 4882 |
| `RetainedSize.RecordsFit` | src/dynamics/limits.ts:51-56 | no retained record, queued or rejected, prints longer than the constant, six units for an escaped one counted |
| `RetainedSize.BoundIsReached` | src/dynamics/limits.ts:25-35 | the bound is tight |
| `RetainedSize.OneTickFits` | src/dynamics/limits.ts:52-55 | 128 records never exceed the limit on all of them |
| `RetainedSize.ArrangedSize` | src/dynamics/actionRetention.ts:57-62 | the printed size of an object does not depend on how its members are arranged |
| `RetainedSize.EvidenceBuffer.Available` | src/dynamics/actionRetention.ts:82-89 | there is room exactly below 128 entries and the last safe ordinal |
| `RetainedSize.EvidenceBuffer.Emit` | src/dynamics/actionRetention.ts:99-105 | appends under the next ordinal |
| `RetainedSize.EvidenceBuffer.Acknowledge` | src/dynamics/actionRetention.ts:92-97 | accepted exactly within what was issued; drops exactly that prefix |
| `RetainedSize.EvidenceBuffer.ReadAfter` | src/dynamics/actionRetention.ts:106-112 | gives exactly the later entries, in order |
| `RetainedSize.EvidenceBuffer.Restore` | src/dynamics/actionRetention.ts:113-117 | keeps exactly the entries up to the ordinal and issues the next one after it |
| `RetainedSize.SplitAt` | src/dynamics/actionRetention.ts:92-117 | acknowledged and kept entries are a prefix and the rest: none is lost or doubled |
| `LiveViewer.FramesIncrease` | src/compose/liveViewerProjection.ts:280-301 | frame ticks strictly increase and end at the frontier |
| `LiveViewer.FrontierIsMaximum` | src/compose/liveViewerProjection.ts:301 | the frontier is the largest tick of all samples ever published |
| `LiveViewer.RegressesExactly` | src/compose/liveViewerProjection.ts:280-284 | a trace goes back exactly if there is a frontier and no sample has a tick at or above it |
| `LiveViewer.LinesAre` | src/compose/liveViewerProjection.ts:312-335 | line k of the ledger names publication k, its snapshot, digest, frontier and number of samples |
| `LiveViewer.EachContributesItsOwn` | src/compose/liveViewerProjection.ts:289-291 | publication k contributes exactly its samples above the frontier before it |
| `LiveViewer.FreshElements` | src/compose/liveViewerProjection.ts:289-297 | a publication adds its samples above the frontier in order of tick, none past the next frontier |
| `LiveViewer.DeclarationCommits` | src/compose/liveViewerProjection.ts:342-345 | the last write turns the disk of one publication into that of the next |
| `LiveViewer.LandingKeepsExactly` | src/compose/liveViewerProjection.ts:353-356 | a restoration that lands late on a declared generation leaves it consistent exactly when it restores what was published last |
| `LiveViewer.DeclarationKeepsExactly` | src/compose/liveViewerProjection.ts:342-345 | restorations that land between the writes of a publication leave its declaration consistent exactly when both candidates are in place |
| `LiveViewer.OlderLedgerBreaks` | src/compose/liveViewerProjection.ts:353-356 | an older ledger never fits a newer declaration |
| `LiveViewer.Projection.Land` | src/compose/liveViewerProjection.ts:353-356 | an operation nobody waits for takes effect: harmless exactly while it restores what was published last |
| `LiveViewer.Projection.Prepare` | src/compose/liveViewerProjection.ts:342-344 | snapshot, ledger and frames leave the declared publication intact at every step; without a restoration landing meanwhile all three are then in place |
| `LiveViewer.Projection.Declare` | src/compose/liveViewerProjection.ts:345 | the commit marker: over the three files in place it makes the disk exactly the new publications, or nothing changed; over a displaced one it marks a generation that is not there |
| `LiveViewer.Projection.RestoreBoth` | src/compose/liveViewerProjection.ts:353-356 | both restorations are begun together; exactly the one that outlives a failure of the other is left in flight |
| `LiveViewer.Projection.RollBack` | src/compose/liveViewerProjection.ts:346-360 | every step of a rollback may fail, and a restoration may be left in flight, and the disk stays consistent; if no step fails and nothing lands meanwhile, it is exactly what was published |
| `LiveViewer.Projection.WriteGeneration` | src/compose/liveViewerProjection.ts:341-361 | the four writes and, from the first that fails, the rollback; what is in flight afterwards is what was before and what the rollback left |
| `LiveViewer.Projection.Publish` | src/compose/liveViewerProjection.ts:252-368 | refused exactly for a closed projection, a source in which any field is not that of this artifact, run and trace, or a trace that goes back; succeeds exactly if not refused and four writes meet no fault; while no restoration is outstanding, or none lands meanwhile, at every disk state in between a declaration names a snapshot that is there, under a ledger and frames that extend it, success leaves exactly the new publications, and a failure whose rollback meets no fault exactly the old; what a failure leaves in flight is listed |
| `LiveViewer.Projection.RemoveTransientFiles` | src/compose/liveViewerProjection.ts:237-247 | removes the declaration first; succeeds exactly without a fault, and then nothing is left unless a restoration lands; removals that a failure leaves behind harm nothing |
| `LiveViewer.Projection.Finalize` | src/compose/liveViewerProjection.ts:372-388 | while no restoration is outstanding, or none lands meanwhile, leaves no transient file; hands over every snapshot, the ledger and the frames |
| `LiveViewer.LateLedgerBreaksDeclaration` | src/compose/liveViewerProjection.ts:352-360 | the failing schedule: after a failed and a successful publication the old ledger lands, and the declaration names a generation that is not there |
| `LiveViewer.LateLedgerSurvivesClosing` | src/compose/liveViewerProjection.ts:372-379 | or it lands after closing, and is the one file left |
| `StaticGraph.Preflight` | src/dynamics/buildStaticResolverPolicy.ts:255-279 | on a finite graph it ends, succeeds exactly when every reachable source is admitted and resolves, and returns exactly those sources, each once, each edge checked once |
| `StaticGraph.ExpandSource` | src/dynamics/buildStaticResolverPolicy.ts:269-276 | the inner loop checks and queues the edges of one source, in order |
| `StaticGraph.RuntimeGraph` | src/dynamics/buildStaticGraphPolicy.ts:43-65 | succeeds exactly when every runtime-reachable source is fine and returns exactly those sources; an error names one that is not |
| `StaticGraph.RuntimeIsSubset` | src/dynamics/buildStaticGraphPolicy.ts:43-65 | every source of the runtime pass is one that the preflight returned |
| `StaticGraph.RuntimeNeedsCanonicalNames` | src/dynamics/buildStaticGraphPolicy.ts:55-62 | after a preflight the runtime pass accepts a source exactly when the resolver names its runtime imports canonically |
| `StaticGraph.DottedNameIsNotAKey` | src/dynamics/buildStaticGraphPolicy.ts:55-62 | a world with an un-normalized resolver name, where the preflight succeeds and the runtime pass refuses |
| `StaticGraph.NormalNamesAreKeys` | src/dynamics/buildStaticGraphPolicy.ts:55-62 | under a validator that is idempotent on its results, a resolver that names files as it does never meets the error |
| `ReceiptLock.CompareSourceDigests` | src/dynamics/buildReceiptLock.ts:104-116 | the index loop computes the lexicographic comparison of the source lists |
| `ReceiptLock.CompareToolIdentities` | src/dynamics/buildReceiptLock.ts:118-138 | likewise for tool identities |
| `ReceiptLock.CompareIsLex` | src/dynamics/buildReceiptLock.ts:140-178 | the chained comparator is the lexicographic order of flattened claims |
| `ReceiptLock.CompareIsTotalOrder` | src/dynamics/buildReceiptLock.ts:140-178 | it is antisymmetric and transitive, and zero exactly on equal claims |
| `ReceiptLock.LengthsDecide` | src/dynamics/buildReceiptLock.ts:108-110 | lengths compared as decimal texts are equal exactly when the lengths are |
| `ReceiptLock.PermutationsSortAlike` | src/dynamics/buildReceiptLock.ts:233 | any permutation of the claims sorts to one list |
| `ReceiptLock.CanonicalMeansSorted` | src/dynamics/buildReceiptSourceEvidence.ts:160-164 | a list equals its own sort exactly when it is sorted |
| `SourceClaims.FileClaims` | src/dynamics/buildReceiptSourceEvidence.ts:245-261 | the first loop succeeds exactly on supported claims without a shared key, and files each once |
| `SourceClaims.AssertSourceClaims` | src/dynamics/buildReceiptSourceEvidence.ts:239-327 | succeeds exactly when inputs and claims correspond one to one with equal identities and digests, and the counts agree with the source graph |
| `SourceClaims.PackageKeysAreInjective` | src/dynamics/buildReceiptSourceEvidence.ts:123-137 | without NUL in the fields, equal package keys mean equal fields |
| `SourceClaims.TypeOnlyKeysAreInjective` | src/dynamics/buildReceiptSourceEvidence.ts:123-137 | likewise for type-only keys and their file lists |
| `SourceClaims.RelativeExactly` | src/dynamics/buildReceiptSourceEvidence.ts:276 | a package input matches only under a path that starts with a dot and a slash |
| `BuildStaging.StagedPair.Stage` | src/dynamics/buildLoadFiles.ts:129-199 | succeeds, with exactly the new files, only when nothing was in the way; fails only when something was or a step failed, and then the file map is the initial one unless a removal failed too |
| `BuildStaging.StagedPair.CleanUp` | src/dynamics/buildLoadFiles.ts:142-169 | however often cut short and repeated, a cleanup that succeeds restores the initial map, and no initial entry is ever missing |
| `BuildStaging.StagedPair.Publish` | src/dynamics/buildLoadFiles.ts:93-127 | the file appears whole and read-only, or nothing changed; fails only for a name taken or a failed step |
| `BuildStaging.StagedPair.TakeName` | src/dynamics/buildLoadFiles.ts:114-120 | only a name that was free is taken over |
| `BuildStaging.StagedPair.Place` | src/dynamics/buildLoadFiles.ts:117-120 | the reserved name takes over the temporary file and becomes read-only; fails only for a failed step |
| `BuildStaging.StagedPair.DropCreated` | src/dynamics/buildLoadFiles.ts:121-125 | removes what was created and nothing else |
| `RunRecord.Record.DurableWrite` | src/compose/runRecord.ts:58-76 | writes a new file whole, or leaves nothing unless the removal fails too |
| `RunRecord.Record.WriteArtifacts` | src/compose/runRecord.ts:94-130 | adds the whole group or, removals working, nothing; every reason for a refusal is listed, a path that is taken, lies below a file, or lies below another of the group among them |
| `RunRecord.Record.WriteGroup` | src/compose/runRecord.ts:105-126 | the loop over the group and its rollback, with the directories made on the way |
| `RunRecord.Record.MakeDirectories` | src/compose/runRecord.ts:109 | makes every directory above a path, exactly if no file is in its place |
| `RunRecord.Record.Seal` | src/compose/runRecord.ts:131-177 | publishes the staged files with an inventory and a manifest exactly once, or leaves them staged; every reason for a refusal is listed, among them a file or a directory under either listing's name |
| `RunRecord.Record.Abort` | src/compose/runRecord.ts:178-182 | empties the staging directory of an unsealed record and touches no sealed one |
| `RunRecord.ManifestIsExact` | src/compose/runRecord.ts:153-156 | the manifest lists exactly the written artifacts and the inventory, strictly by path |
| `RunRecord.DeclarableExactly` | src/compose/runRecord.ts:94-104 | a group may be declared exactly if it is not empty and its paths are normal, relative, new, different, at most 4096 units and not the record's own, and no file has more than 1,073,741,824 bytes |
| `RecoveryCommand.CommandSplits` | src/compose/receipt.ts:86-97 | a shell splits the printed command into its eight words, spelled out, whatever the path, run id and digest |
| `RecoveryCommand.QuotedReads` | src/compose/receipt.ts:86 | a quoted text, quotes and all, reads back as one word |
| `RecoveryCommand.RecoveryRoundTrip` | src/compose/recoveryCommand.ts:15-30 | splitting the printed command and parsing its arguments returns the same path, run id and digest exactly if they have their formats |
| `RecoveryCommand.CommandFitsExactly` | src/compose/receipt.ts:69-82 | the command fits its schema exactly when path, four per quote in it, and run id are at most 8059 units |
| `RecoveryCommand.QuotedPathDoesNotFit` | src/compose/receipt.ts:22-23 | a path the schema admits whose command does not fit |
| `JournalSession.Session.AssertCurrent` | src/compose/journalSession.ts:98-104 | succeeds only if the file holds exactly what this session last saw; every reason for a refusal is listed |
| `JournalSession.Session.Replace` | src/compose/journalSession.ts:105-126 | compare and swap: at every step the path holds the old journal or the new one, it changes only from what the session last saw; without a fault it succeeds exactly when the demands before the rename are met and the new journal is not too large to be read, and when only the size fails the new one is in place all the same |
| `JournalSession.Session.Swap` | src/compose/journalSession.ts:117-125 | the second check and the rename; what is renamed is confirmed exactly if it is not too large |
| `JournalSession.Session.Confirm` | src/compose/journalSession.ts:121-124 | success means the file holds the new journal and can be read; every reason for a refusal is listed |
| `JournalSession.OversizedJournalLocksOut` | src/compose/journalSession.ts:57-64 | a replacement by a journal that is too large is refused with the journal in place, and no session opens on it, without any fault |
| `JournalSession.OpenSession` | src/compose/journalSession.ts:129-142 | opens exactly what can be read, but for a fault; the session then holds what the file does |
| `JournalSession.StaleReplaceChangesNothing` | src/compose/journalSession.ts:98-117 | a session whose journal another one replaced cannot overwrite it |
| `JournalSession.LinkFirst` | src/compose/journalSession.ts:144-163 | a first journal is linked into place whole, and never over one that is there; without a fault it can be read back exactly if it is not too large |
| `JournalSession.CreateSession` | src/compose/journalSession.ts:144-163 | a new session holds the journal it linked; without a fault there is one exactly for a path that was free and a journal that parses and is not too large |
| `OrganizationEvidence.CheckAuthorities` | src/compose/finalize-organization.ts:124-143 | the loop accepts exactly when each of the four entries counts and digests its own files |
| `OrganizationEvidence.BuiltReceiptParses` | src/compose/finalize-organization.ts:147-209 | what the builder makes parses exactly when its paths are strictly sorted, no optional file is listed twice, and Moltnet and Daimon are each represented |
| `OrganizationEvidence.AuthoritiesDivideFiles` | src/compose/finalize-organization.ts:166-190 | every exported file belongs to exactly one authority's entry |
| `OrganizationEvidence.ExportableExactly` | src/compose/finalize-organization.ts:151-209 | an export gives a receipt that parses exactly if every file is in one of the three directories, files are in strict order, none is missing twice, and Moltnet and Daimon each left one or say it is missing |
| `OrganizationEvidence.BuiltReceiptSays` | src/compose/finalize-organization.ts:159-193 | the receipt has every file under its directory's authority, the missing files, and for each authority the digest and counts of its own |
| `OrganizationEvidence.DirectoriesNameAuthorities` | src/compose/finalize-organization.ts:103-109 | the directory under raw/ names the authority |

## Left out

- RunDurable: the request comparison in `loadOrCreate` and the creation of the journal file are its parameters `created` and `authority`; the recovery command is passed as a text
- Advance: `noCognitionCriterion`, the operator and quiescence timeouts, and abort signals are part of "the port threw"
- OpenSession: the authority that it compares is a parameter of `RunDurable`; a process that cannot open its journal, for example one that is too large, is not part of `RunDurable`
- Persist: overlapping replaces are not modelled, because the code does not exclude them
- Replace: a rename that races with another process between the second check and the rename is not modelled; a write that fails leaves its pending file behind, as in the code
- CleanUp: the single-flight sharing of one cleanup by concurrent callers in `src/dynamics/buildLoadFiles.ts` is not modelled
- CompletableExactly: whether the JSON check has room for an answer is part of "the port threw", and for a journal part of the gate; fields that only their own schema reads (the compiled schedule, labels, container names) are not modelled
- MarkFailsExactly: the size half of the gate is a parameter there, since how many bytes, keys and nodes a receipt takes depends on fields that the lifecycle modules do not spell out
- ReadOfPrint: reading does not admit white space between tokens, and a number is a decimal triple as ECMA-262 prints it; rounding of a decimal text to a double is not modelled
- Publish: the geometry inside a trace (bounds, objects, transit) is one opaque body per sample; the hand-over to the run record is the list of artifacts; the temporary file of an atomic write is not modelled
- WriteArtifacts: a path is judged by its parts; a directory made on the way stays, and its synchronization is not modelled
- ReadAfter: negative or unsafe ordinals, which the code rejects, are outside the type
- FinalizeWorld: the helper that a port seals its inventory with sorts it by `localeCompare` and is not modelled; the order that the schema then asks for is
- AssertSourceClaims: the shape checks before it (`assertPortableClaims`, `assertDedupedLocks`, `assertToolset`) are not modelled
- SHA-256, zod formats, UTF-8 encoding of file contents, file modes, owners, symbolic links and link counts
- `coalesceAuthoritiesByLockRealpath`, lock deduplication and the rest of the receipt lock, which inspect the file system
- TypeScript syntax policies, module resolution and esbuild, which depend on compiler libraries
- The command line, the web viewer, Docker and npm plumbing, coverage and scripts
- One-pass validators of live evidence, viewer binding, commitment outcomes and credential projection, which would add easy members only
