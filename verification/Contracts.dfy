/** The records a composed run exchanges and keeps. A digest is a free
    constructor over its domain and content, so equal digests mean equal
    contents; a digest of something this model does not describe is Foreign. */
module Contracts {
  import opened Wrappers
  import opened Text
  import OrganizationEvidence

  type Name = string
  type Handle = Text

  datatype Digest = Sealed(domain: Domain, content: Content) | Foreign(name: Name)

  datatype Domain =
    | RequestDomain | PhaseDomain(phase: Phase) | JournalDomain(version: Version)
    | AuthorityDomain | ExecutionDomain | CapsuleDomain | BindingDomain
    | TargetRequestDomain | OperationDomain | BootstrapRequestDomain | BootstrapOperationDomain
    | KeyDomain(stage: Stage)
    | PreparationDomain | WorldResourceDomain | WorldServiceDomain | ReadinessDomain
    | UpReceiptDomain | HandoffDomain | TopologyHintDomain
    | TargetTopologyDomain | AttestationDomain | ActivationMarkerDomain | TargetActivationDomain
    | ActivationDomain | TickDomain | RunningDomain | WorldTerminalDomain
    | PauseDomain | WorldInventoryDomain | WorldEvidenceDomain
    | OrganizationInventoryDomain | OrganizationEvidenceDomain
    | OwnershipDomain | CleanupOperationDomain | CleanupDomain
    | SealDomain | VerdictDomain | TerminalJournalDomain | TerminalReceiptDomain | PlainDomain

  datatype Stage =
    | PreparationStage | WorldStage | OrganizationStage | TopologyStage
    | WorldFinalizationStage | OrganizationExportStage | CleanupStage

  /** What is digested: for a receipt, its body without the digest field. */
  datatype Content =
    | RequestContent(request: Request)
    | PayloadContent(payload: Payload)
    | JournalContent(body: JournalBody)
    | AuthorityContent(bootstrap: Option<Digest>, execution: Option<Digest>, nonce: Name,
                       recordedAt: int, request_digest: Digest)
    | ExecutionContent(run: Execution)
    | CapsuleContent(capsule: Capsule)
    | BindingContent(binding: BindingBody)
    | OperationRequestContent(operationRequest: OperationRequest)
    | OperationContent(command: Name, operationRequestDigest: Digest, sequence: nat)
    | BootstrapRequestContent(kind: BootstrapKind, bootstrapRequest: OperationRequest)
    | BootstrapOperationContent(bootstrapKind: BootstrapKind, bootstrapRequestDigest: Digest, bootstrapSequence: nat)
    | KeyContent(effect: Effect, keyRequestDigest: Digest)
    | PreparationContent(preparation: PreparationBody)
    | WorldResourceContent(resource: WorldResourceBody)
    | WorldServiceContent(service: WorldServiceBody)
    | ReadinessContent(readiness: Readiness)
    | UpReceiptContent(up: UpReceipt)
    | HandoffContent(handoff: HandoffBody)
    | TopologyHintContent(organizationPhase: Digest, hintRequest: Digest, worldPhase: Digest)
    | TargetTopologyContent(topology: TargetTopologyBody)
    | AttestationContent(attestation: AttestationBody)
    | ActivationMarkerContent(marker: ActivationMarker)
    | TargetActivationContent(targetActivation: TargetActivationBody)
    | ActivationContent(activation: ActivationBody)
    | TickContent(tick: TickBody)
    | RunningContent(running: RunningBody)
    | WorldTerminalContent(terminal: WorldTerminalBody)
    | PauseContent(pause: PauseBody)
    | WorldInventoryContent(worldInventory: seq<WorldItem>)
    | WorldEvidenceContent(worldEvidence: WorldEvidenceBody)
    | OrganizationInventoryContent(files: seq<OrganizationEvidence.File>, missing: seq<Text>)
    | OrganizationEvidenceContent(organizationEvidence: OrganizationEvidenceBody)
    | OwnershipContent(ownership: Ownership)
    | CleanupOperationContent(cleanupOperation: CleanupOperationBody)
    | CleanupContent(cleanup: CleanupBody)
    | SealContent(organizationSeal: Digest, worldSeal: Digest)
    | VerdictContent(cleanupReceipt: Digest, seal: Digest, terminalTick: int)
    | TerminalJournalContent(entries: seq<Entry>, journalRequest: Digest)
    | TerminalReceiptContent(terminalReceipt: TerminalReceiptBody)
    | TargetContent(selected: SelectedTarget)

  datatype Receipt<B> = Receipt(body: B, digest: Digest)

  // ---- request and configuration ------------------------------------------------

  datatype Target = Target(fingerprint: Name, handle: Handle)

  /** A target as a preparation reports it: with its version and whatever further fields it has. */
  datatype SelectedTarget = SelectedTarget(target: Target, detail: Name)

  datatype Request = Request(
    runId: Name, descriptor: Digest, organizationArtifact: Digest, worldBindings: Digest,
    capabilities: seq<Text>, authProfile: Name, selector: Name,
    artifactManifest: Digest, bundle: Digest)

  datatype Capability = Capability(identity: Text, manifest: Text)

  /** The readiness a world sidecar reports; `detail` stands for the fields that
      are only compared with the expectation. */
  datatype Readiness = Readiness(
    runId: Name, bundle: Digest, capabilities: Option<seq<Capability>>, manifests: seq<Text>, instance: Text,
    detail: Name)
  {
    function Advertised(): seq<Capability> { capabilities.GetOr([]) }
  }

  datatype Release = Release(architecture: Name, asset: Digest, version: Text, revision: Text)

  datatype OrganizationExpectation = OrganizationExpectation(
    deploymentName: Name, engines: map<Text, Text>, release: Option<Release>,
    selectedTargetReceipt: Digest, unitId: Name, worldBinding: Digest)

  datatype TopologyExpectation = TopologyExpectation(target: Target, requestDigest: Option<Digest>)

  datatype Resolution = Resolution(context: Name, configDigest: Digest, helper: Name)

  datatype Execution = Execution(
    organization: OrganizationExpectation, readiness: Readiness, terminalTick: int,
    topology: TopologyExpectation, resolution: Option<Resolution>)

  datatype Capsule = Capsule(runId: Name, detail: Name)

  datatype BindingBody = BindingBody(
    bootstrapAuthority: Digest, bootstrapDigest: Digest, executionDigest: Digest,
    requestDigest: Digest, runId: Name, context: Name, configDigest: Digest, helper: Name,
    target: Target, selectedTargetReceipt: Digest)

  // ---- journal ------------------------------------------------------------------

  datatype Phase =
    | Requested | Prepared | WorldCreated | WorldStartedPaused | WorldReady
    | OrganizationStarted | OrganizationReady | TopologyVerified | Activated | Tick1
    | Running | Terminal | WorldPaused | WorldEvidenceExported | OrganizationEvidenceExported
    | Cleaned | Completed

  datatype Version = V1 | V2

  datatype State = Active | Recoverable | Complete

  datatype Signal = Sigint | Sigterm | Restart | Failure

  datatype Interruption = Interruption(nextPhase: Phase, command: Text, signal: Signal)

  datatype Entry = Entry(phase: Phase, payload: Payload, payloadDigest: Digest, recordedAt: int, sequence: nat)

  datatype OperationRequest = OperationRequest(runId: Name, detail: Name)

  datatype OperationState = IntentDurable | OperationCompleted | LookupRequired | NotApplied | Pending | Ambiguous

  datatype Operation = Operation(
    command: Name, id: Digest, recordedAt: int, request: OperationRequest, requestDigest: Digest,
    sequence: nat, state: OperationState, receipt: Option<Name>)

  datatype BootstrapKind =
    | ResolveTargetConfig | SelectTarget | PrepareContainerBundle | ProvisionCredentials | PrepareComposedRun

  datatype BootstrapOperation = BootstrapOperation(
    kind: BootstrapKind, id: Digest, recordedAt: int, request: OperationRequest, requestDigest: Digest,
    sequence: nat, state: OperationState, receipt: Option<Name>)

  datatype JournalBody = JournalBody(
    version: Version, request: Request, requestDigest: Digest, nonce: Name, authority: Digest,
    currentPhase: Phase, entries: seq<Entry>, state: State, interruption: Option<Interruption>,
    operations: Option<seq<Operation>>, bootstrap: Option<Capsule>,
    bootstrapOperations: Option<seq<BootstrapOperation>>,
    binding: Option<Receipt<BindingBody>>, execution: Option<Execution>)

  datatype Journal = Journal(body: JournalBody, digest: Digest)

  // ---- phase payloads -------------------------------------------------------------

  datatype Payload = Payload(runId: Name, fact: Fact)

  datatype Fact =
    | RequestFact(requestDigest: Digest)
    | PreparedFact(preparation: Receipt<PreparationBody>, preparationDigest: Digest)
    | WorldCreatedFact(resource: Receipt<WorldResourceBody>)
    | WorldStartedFact(service: Receipt<WorldServiceBody>)
    | WorldReadyFact(readiness: Readiness, readinessDigest: Digest)
    | OrganizationStartedFact(up: UpReceipt, upDigest: Digest)
    | OrganizationReadyFact(release: Option<Release>, handoff: Handoff, ready: ReadyRecord, readyDigest: Digest)
    | TopologyFact(attestation: Receipt<AttestationBody>, attestationDigest: Digest)
    | ActivatedFact(activation: Receipt<ActivationBody>, activationDigest: Digest)
    | TickFact(tick: Receipt<TickBody>, tickDigest: Digest)
    | RunningFact(running: Receipt<RunningBody>, runningDigest: Digest)
    | TerminalFact(terminal: Receipt<WorldTerminalBody>, terminalDigest: Digest)
    | PausedFact(pause: Receipt<PauseBody>, pauseDigest: Digest)
    | WorldEvidenceFact(worldEvidence: Receipt<WorldEvidenceBody>, worldEvidenceDigest: Digest)
    | OrganizationEvidenceFact(organizationEvidence: Receipt<OrganizationEvidenceBody>,
                               organizationEvidenceDigest: Digest)
    | CleanedFact(cleanup: Receipt<CleanupBody>, cleanupDigest: Digest)
    | CompletedFact(terminalReceipt: Receipt<TerminalReceiptBody>, terminalReceiptDigest: Digest)

  datatype PreparationBody = PreparationBody(
    runId: Name, descriptor: Digest, authProfile: Name, selector: Name,
    organizationArtifact: Digest, worldBindings: Digest, artifactManifest: Digest, bundle: Digest,
    selected: SelectedTarget, dataNetwork: Handle, evidenceVolume: Handle, secretBindings: Handle,
    worldArtifact: Handle)

  datatype WorldResourceBody = WorldResourceBody(
    artifact: Digest, bundle: Digest, preparation: Digest, resource: Handle, runId: Name)

  datatype WorldServiceBody = WorldServiceBody(resource: Handle, runId: Name, service: Handle)

  datatype HandoffBody = HandoffBody(
    binding: Digest, networkAttachment: Handle, runId: Name, selectedTargetReceipt: Digest)

  datatype Handoff = Handoff(body: HandoffBody, deploymentHandle: Digest)

  datatype ReadyRecord = ReadyRecord(fingerprint: Name, runId: Name, unitId: Name, worldBinding: Digest)

  datatype TargetOperation =
    | AttachOrganization | CleanupRun | CreateWorldService | DetachOrganizationOperation | ExportEvidenceVolume
    | RevokeBindings | StartWorldService | StopWorldService

  /** The target receipt an up receipt may carry: of any operation, with or without a result. */
  datatype Attachment = Attachment(operation: TargetOperation, result: Option<Handle>)

  datatype UpReceipt = UpReceipt(
    deploymentName: Name, containers: seq<Name>, engines: seq<(Text, Text)>, fingerprint: Name,
    release: Option<Release>, handoff: Handoff, handoffHandle: Handle, ready: Option<ReadyRecord>,
    baseUrl: Option<Name>, runId: Name, attachment: Option<Attachment>)

  datatype TargetTopologyBody = TargetTopologyBody(
    descriptor: Digest, requestDigest: Digest, runId: Name, target: Target)

  datatype AttestationBody = AttestationBody(
    organizationPhase: Digest, requestDigest: Digest, runId: Name,
    topology: Receipt<TargetTopologyBody>, worldPhase: Digest)

  datatype ActivationMarker = ActivationMarker(
    bundle: Digest, runId: Name, topologyReceipt: Digest, topologyRequest: Digest)

  datatype TargetActivationBody = TargetActivationBody(marker: ActivationMarker, activationDigest: Digest)

  datatype ActivationBody = ActivationBody(
    attestation: Digest, runId: Name, activation: Receipt<TargetActivationBody>)

  datatype TickBody = TickBody(
    activation: Digest, completedTick: int, nextTick: int, runId: Name, worldPhase: Digest)

  datatype RunningBody = RunningBody(activation: Digest, firstTick: Digest, runId: Name)

  datatype Reason = ReasonCompleted | ReasonInterrupted

  datatype WorldTerminalBody = WorldTerminalBody(
    outcome: Digest, reason: Reason, runId: Name, running: Digest, terminalTick: int)

  datatype PauseBody = PauseBody(finalTick: int, runId: Name, service: Handle, terminal: Digest)

  datatype WorldAuthority = Actions | Checkpoints | Projections

  datatype WorldItem = WorldItem(authority: WorldAuthority, path: Text)

  datatype WorldEvidenceBody = WorldEvidenceBody(
    exportHandle: Handle, inventory: seq<WorldItem>, inventoryDigest: Digest,
    pause: Digest, runId: Name, service: Handle)

  datatype OrganizationEvidenceBody = OrganizationEvidenceBody(
    deployment: Name, evidence: OrganizationEvidence.Receipt, inventoryDigest: Digest, organizationPhase: Digest,
    runId: Name)

  datatype Ownership = Ownership(
    dataNetwork: Handle, evidenceVolume: Handle, organizationAttachment: Handle,
    organizationHandoff: Handle, secretBindings: Handle, worldResource: Handle, worldService: Handle)

  datatype CleanupOperation =
    | StopWorld | DetachOrganization | DownOrganization | RevokeSecretBindings | CleanupTargetResources

  datatype CleanupOperationBody = CleanupOperationBody(
    operation: CleanupOperation, ownership: Digest, released: seq<Handle>, remaining: seq<Handle>,
    runId: Name, completed: bool, targets: seq<Handle>)

  datatype CleanupBody = CleanupBody(
    operations: seq<Receipt<CleanupOperationBody>>, ownership: Digest, runId: Name)

  datatype Evidence = Evidence(digest: Digest, itemCount: nat)

  datatype TerminalReceiptBody = TerminalReceiptBody(
    cleanup: Digest, organization: Evidence, world: Evidence, journalDigest: Digest,
    requestDigest: Digest, runId: Name, seal: Digest, preparation: Digest, target: Target,
    selector: Name, activation: Digest, topologyRequest: Digest, topologyReceipt: Digest, verdict: Digest)

  // ---- effects ---------------------------------------------------------------------

  /** The operations whose idempotency keys the run derives from its request. */
  datatype Effect =
    | PrepareRun | CreateWorldResource | StartWorldPaused | StartOrganization | ActivateTopology
    | PauseWorld | ExportWorldEvidence | ExportOrganization | Clean(operation: CleanupOperation)

  // ---- phases ----------------------------------------------------------------------


  function Index(p: Phase): (i: nat)
    ensures i < 17
  {
    match p
    case Requested => 0 case Prepared => 1 case WorldCreated => 2 case WorldStartedPaused => 3
    case WorldReady => 4 case OrganizationStarted => 5 case OrganizationReady => 6
    case TopologyVerified => 7 case Activated => 8 case Tick1 => 9 case Running => 10
    case Terminal => 11 case WorldPaused => 12 case WorldEvidenceExported => 13
    case OrganizationEvidenceExported => 14 case Cleaned => 15 case Completed => 16
  }

  function PhaseAt(i: nat): Phase
    requires i < 17
  {
    match i
    case 0 => Requested case 1 => Prepared case 2 => WorldCreated case 3 => WorldStartedPaused
    case 4 => WorldReady case 5 => OrganizationStarted case 6 => OrganizationReady
    case 7 => TopologyVerified case 8 => Activated case 9 => Tick1 case 10 => Running
    case 11 => Terminal case 12 => WorldPaused case 13 => WorldEvidenceExported
    case 14 => OrganizationEvidenceExported case 15 => Cleaned case _ => Completed
  }

  function NextPhase(p: Phase): Option<Phase> {
    if Index(p) == 16 then None else Some(PhaseAt(Index(p) + 1))
  }

  lemma {:induction false} PhaseAtIndex(p: Phase)
    ensures PhaseAt(Index(p)) == p
  {
  }

  lemma {:induction false} IndexOfPhaseAt(i: nat)
    requires i < 17
    ensures Index(PhaseAt(i)) == i
  {
  }
}
