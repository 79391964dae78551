/** The calls a run makes to its ports and the checks it puts on every answer.
    Phase i of a run is the payload at index i; the checks of a phase read only
    the payloads before it. */
module Receipts {
  import opened Wrappers
  import opened Text
  import opened Formats
  import opened Contracts
  import opened PhaseJournal
  import opened Secrets
  import OrganizationEvidence

  datatype Configuration = Configuration(
    deploymentName: Name, organization: OrganizationExpectation, readiness: Readiness,
    terminalTick: int, topology: TopologyExpectation)

  function ConfigurationOf(x: Execution): Configuration {
    Configuration(x.organization.deploymentName, x.organization, x.readiness, x.terminalTick, x.topology)
  }

  datatype RawExport = RawExport(
    deployment: Name, failedFiles: seq<Name>, indexDeployment: Name, indexRunId: Name, index: Name,
    files: seq<OrganizationEvidence.RawFile>, missing: seq<Text>)

  /** What a port hands back. Threw also stands for an answer that is not of the
      expected schema or that the JSON check refuses. */
  datatype Reply =
    | Threw
    | PreparationReply(preparation: Receipt<PreparationBody>)
    | ResourceReply(resource: Receipt<WorldResourceBody>)
    | ServiceReply(service: Receipt<WorldServiceBody>)
    | ReadinessReply(readiness: Readiness)
    | UpReply(up: UpReceipt)
    | AttestationReply(attestation: Receipt<AttestationBody>)
    | ActivationReply(activation: Receipt<ActivationBody>)
    | TickReply(tick: Receipt<TickBody>)
    | TerminalReply(terminal: Receipt<WorldTerminalBody>)
    | PauseReply(pause: Receipt<PauseBody>)
    | WorldEvidenceReply(worldEvidence: Receipt<WorldEvidenceBody>)
    | ExportReply(exported: RawExport)
    | CleanupReply(cleanup: Receipt<CleanupOperationBody>)

  datatype PortCall =
    | CallPrepare(key: Digest, request: Request)
    | CallCreateResource(key: Digest, preparation: Receipt<PreparationBody>)
    | CallStartWorld(key: Digest, resource: Receipt<WorldResourceBody>)
    | CallReadiness(service: Receipt<WorldServiceBody>)
    | CallStartOrganization(key: Digest, runId: Name, worldReadiness: Digest)
    | CallOrganizationReadiness(up: UpReceipt)
    | CallAttest(organizationPhase: Payload, organizationPhaseDigest: Digest, requestDigest: Digest,
                 runId: Name, topologyRequest: Digest, worldPhase: Payload, worldPhaseDigest: Digest)
    | CallActivate(key: Digest, attestation: Receipt<AttestationBody>)
    | CallFirstTick(activation: Receipt<ActivationBody>)
    | CallWaitTerminal(expectedTick: int, running: Receipt<RunningBody>)
    | CallPause(key: Digest, service: Receipt<WorldServiceBody>, terminal: Receipt<WorldTerminalBody>)
    | CallExportWorld(key: Digest, pause: Receipt<PauseBody>)
    | CallExportOrganization(deployment: Name, key: Digest, organizationPhaseDigest: Digest, runId: Name)
    | CallClean(key: Digest, operation: CleanupOperation, owned: seq<Contracts.Handle>, ownership: Digest,
                runId: Name, targets: seq<Contracts.Handle>)

  // ---- idempotency keys -------------------------------------------------------------

  function StageOf(e: Effect): Stage {
    match e
    case PrepareRun => PreparationStage
    case CreateWorldResource => WorldStage
    case StartWorldPaused => WorldStage
    case StartOrganization => OrganizationStage
    case ActivateTopology => TopologyStage
    case PauseWorld => WorldFinalizationStage
    case ExportWorldEvidence => WorldFinalizationStage
    case ExportOrganization => OrganizationExportStage
    case Clean(_) => CleanupStage
  }

  function Key(e: Effect, requestDigest: Digest): Digest {
    Sealed(KeyDomain(StageOf(e)), KeyContent(e, requestDigest))
  }

  /** The key a mutating call carries; reading calls carry none. */
  function KeyOf(c: PortCall): Option<Digest> {
    if c.CallReadiness? || c.CallOrganizationReadiness? || c.CallAttest? || c.CallFirstTick? || c.CallWaitTerminal?
    then None
    else Some(c.key)
  }

  // ---- the payloads so far --------------------------------------------------------------

  predicate KindAt(i: nat, fact: Fact) {
    match i
    case 0 => fact.RequestFact? case 1 => fact.PreparedFact? case 2 => fact.WorldCreatedFact?
    case 3 => fact.WorldStartedFact? case 4 => fact.WorldReadyFact? case 5 => fact.OrganizationStartedFact?
    case 6 => fact.OrganizationReadyFact? case 7 => fact.TopologyFact? case 8 => fact.ActivatedFact?
    case 9 => fact.TickFact? case 10 => fact.RunningFact? case 11 => fact.TerminalFact?
    case 12 => fact.PausedFact? case 13 => fact.WorldEvidenceFact? case 14 => fact.OrganizationEvidenceFact?
    case 15 => fact.CleanedFact? case 16 => fact.CompletedFact? case _ => false
  }

  predicate Kinds(ps: seq<Payload>) {
    forall i :: 0 <= i < |ps| ==> KindAt(i, ps[i].fact)
  }

  function PhaseDigest(ps: seq<Payload>, i: nat): Digest
    requires i < |ps| && i < 17
  {
    PayloadDigest(PhaseAt(i), ps[i])
  }

  // ---- the checks on each answer -----------------------------------------------------------

  predicate PreparationSealed(x: Receipt<PreparationBody>) {
    var b := x.body;
    && x.digest == Sealed(PreparationDomain, PreparationContent(b))
    && b.dataNetwork != b.evidenceVolume && b.dataNetwork != b.secretBindings
    && b.dataNetwork != b.worldArtifact && b.evidenceVolume != b.secretBindings
    && b.evidenceVolume != b.worldArtifact && b.secretBindings != b.worldArtifact
  }

  predicate PreparationFits(cfg: Configuration, r: Request, x: Receipt<PreparationBody>) {
    var b := x.body;
    && PreparationSealed(x)
    && b.runId == r.runId && b.descriptor == r.descriptor && b.authProfile == r.authProfile
    && b.selector == r.selector && b.organizationArtifact == r.organizationArtifact
    && b.worldBindings == r.worldBindings && b.artifactManifest == r.artifactManifest
    && b.bundle == r.bundle && b.selected.target == cfg.topology.target
  }

  predicate ResourceSealed(x: Receipt<WorldResourceBody>) {
    x.digest == Sealed(WorldResourceDomain, WorldResourceContent(x.body))
  }

  predicate ResourceFits(r: Request, preparation: Receipt<PreparationBody>, x: Receipt<WorldResourceBody>) {
    && ResourceSealed(x)
    && x.body.runId == r.runId && x.body.preparation == preparation.digest
    && x.body.artifact == r.artifactManifest && x.body.bundle == r.bundle
  }

  predicate ServiceSealed(x: Receipt<WorldServiceBody>) {
    x.digest == Sealed(WorldServiceDomain, WorldServiceContent(x.body))
  }

  predicate ServiceFits(r: Request, resource: Receipt<WorldResourceBody>, x: Receipt<WorldServiceBody>) {
    ServiceSealed(x) && x.body.runId == r.runId && x.body.resource == resource.body.resource
  }

  function Identities(cs: seq<Capability>): (ts: seq<Text>)
    ensures |ts| == |cs| && forall i :: 0 <= i < |ts| ==> ts[i] == cs[i].identity
  {
    seq(|cs|, i requires 0 <= i < |cs| => cs[i].identity)
  }

  /** A name in the format of run ids that the secret check lets through. */
  predicate Nameable(t: Text) { RunIdText(t) && !SecretShaped(t) }

  /** parseWorldSidecarReadiness, and of the secret check on the payload what it says of these names. */
  predicate ReadinessWellFormed(x: Readiness) {
    && x.manifests != [] && Strict(x.manifests) && Nameable(x.instance)
    && Strict(Identities(x.Advertised()))
    && (forall i :: 0 <= i < |x.Advertised()| ==>
          Nameable(x.Advertised()[i].identity) && x.Advertised()[i].manifest in x.manifests)
  }

  /** What the expectation asks to be reported: its manifests in order. */
  function Reported(e: Readiness): Readiness { e.(manifests := SortByKey(e.manifests, Itself)) }

  /** Equal but for the difference between no capabilities and an empty list of them. */
  predicate SameReadiness(x: Readiness, y: Readiness) {
    x.Advertised() == y.Advertised() && x.(capabilities := None) == y.(capabilities := None)
  }

  predicate ReadinessFits(cfg: Configuration, r: Request, x: Readiness) {
    ReadinessWellFormed(x) && SameReadiness(x, Reported(cfg.readiness)) && x.runId == r.runId
  }

  function ReadinessDigest(x: Readiness): Digest { Sealed(ReadinessDomain, ReadinessContent(x)) }

  function DeploymentHandle(b: HandoffBody): Digest { Sealed(HandoffDomain, HandoffContent(b)) }

  function UpDigest(x: UpReceipt): Digest { Sealed(UpReceiptDomain, UpReceiptContent(x)) }

  /** verifyComposedOrganizationUpReceipt: `ready` asks for the readiness record too. */
  predicate UpFits(cfg: Configuration, r: Request, x: UpReceipt, ready: bool) {
    var e := cfg.organization;
    && x.runId == r.runId && x.deploymentName == e.deploymentName
    && x.containers != []
    && (forall i, j :: 0 <= i < j < |x.containers| ==> x.containers[i] != x.containers[j])
    && x.engines != [] && (forall i :: 0 <= i < |x.engines| ==> Nameable(x.engines[i].0) && Nameable(x.engines[i].1))
    && multiset(x.engines) == multiset(e.engines.Items)
    && (x.release.Some? ==> ReleaseText(x.release.value.version, x.release.value.revision))
    && (e.release.None? <==> x.release.None?) && (e.release.None? <==> x.baseUrl.None?)
    && x.release == e.release
    && x.handoff.body.runId == r.runId && x.handoff.body.binding == e.worldBinding
    && x.handoff.body.selectedTargetReceipt == e.selectedTargetReceipt
    && x.handoff.deploymentHandle == DeploymentHandle(x.handoff.body)
    && (ready ==>
          && x.ready.Some? && x.ready.value.runId == r.runId && x.ready.value.worldBinding == e.worldBinding
          && x.ready.value.fingerprint == x.fingerprint && x.ready.value.unitId == e.unitId)
  }

  function ManifestOf(cs: seq<Capability>, identity: Text): Option<Text> {
    if cs == [] then None
    else
      var later := ManifestOf(cs[1..], identity);
      if later.Some? then later else if cs[0].identity == identity then Some(cs[0].manifest) else None
  }

  /** Every required capability is advertised with a manifest the world attested. */
  predicate CapabilitiesMet(r: Request, x: Readiness) {
    forall i :: 0 <= i < |r.capabilities| ==>
      var m := ManifestOf(x.Advertised(), r.capabilities[i]);
      m.Some? && m.value in x.manifests
  }

  predicate AttestationSealed(x: Receipt<AttestationBody>) {
    && x.digest == Sealed(AttestationDomain, AttestationContent(x.body))
    && x.body.topology.digest == Sealed(TargetTopologyDomain, TargetTopologyContent(x.body.topology.body))
  }

  predicate AttestationFits(cfg: Configuration, r: Request, worldPhase: Digest, organizationPhase: Digest,
                            x: Receipt<AttestationBody>)
  {
    var t := x.body.topology.body;
    && AttestationSealed(x)
    && x.body.runId == r.runId && x.body.requestDigest == RequestDigest(r)
    && x.body.worldPhase == worldPhase && x.body.organizationPhase == organizationPhase
    && t.runId == r.runId && t.descriptor == r.descriptor
    && (cfg.topology.requestDigest.Some? ==> t.requestDigest == cfg.topology.requestDigest.value)
    && t.target == cfg.topology.target
  }

  predicate ActivationSealed(x: Receipt<ActivationBody>) {
    var t := x.body.activation;
    && x.digest == Sealed(ActivationDomain, ActivationContent(x.body))
    && t.digest == Sealed(TargetActivationDomain, TargetActivationContent(t.body))
    && t.body.activationDigest == Sealed(ActivationMarkerDomain, ActivationMarkerContent(t.body.marker))
  }

  predicate ActivationFits(r: Request, attestation: Receipt<AttestationBody>, x: Receipt<ActivationBody>) {
    var m := x.body.activation.body.marker;
    && ActivationSealed(x)
    && x.body.runId == r.runId && x.body.attestation == attestation.digest
    && m.runId == r.runId && m.bundle == r.artifactManifest
    && m.topologyRequest == attestation.body.topology.body.requestDigest
    && m.topologyReceipt == attestation.body.topology.digest
  }

  predicate TickFits(r: Request, activation: Receipt<ActivationBody>, worldPhase: Digest, x: Receipt<TickBody>) {
    && x.digest == Sealed(TickDomain, TickContent(x.body))
    && 1 <= x.body.completedTick <= 1_000_000_000 && x.body.nextTick == x.body.completedTick + 1
    && x.body.runId == r.runId && x.body.activation == activation.digest && x.body.worldPhase == worldPhase
  }

  predicate TickInRange(cfg: Configuration) { 1 <= cfg.terminalTick <= 1_000_000_000 }

  function RunningOf(r: Request, activation: Digest, tick: Digest): Receipt<RunningBody> {
    var b := RunningBody(activation, tick, r.runId);
    Receipt(b, Sealed(RunningDomain, RunningContent(b)))
  }

  predicate TerminalSealed(x: Receipt<WorldTerminalBody>) {
    x.digest == Sealed(WorldTerminalDomain, WorldTerminalContent(x.body))
  }

  predicate TerminalFits(cfg: Configuration, r: Request, running: Receipt<RunningBody>, x: Receipt<WorldTerminalBody>) {
    && TerminalSealed(x)
    && x.body.runId == r.runId && x.body.running == running.digest
    && x.body.terminalTick == cfg.terminalTick && x.body.reason == ReasonCompleted
  }

  predicate PauseSealed(x: Receipt<PauseBody>) {
    x.digest == Sealed(PauseDomain, PauseContent(x.body))
  }

  predicate PauseFits(r: Request, service: Receipt<WorldServiceBody>, terminal: Receipt<WorldTerminalBody>,
                      x: Receipt<PauseBody>)
  {
    && PauseSealed(x)
    && x.body.runId == r.runId && x.body.service == service.body.service
    && x.body.terminal == terminal.digest && x.body.finalTick == terminal.body.terminalTick
  }

  function ItemPaths(items: seq<WorldItem>): (ts: seq<Text>)
    ensures |ts| == |items| && forall i :: 0 <= i < |ts| ==> ts[i] == items[i].path
  {
    seq(|items|, i requires 0 <= i < |items| => items[i].path)
  }

  predicate Flushed(items: seq<WorldItem>, a: WorldAuthority) {
    exists i :: 0 <= i < |items| && items[i].authority == a
  }

  /** The order, the size and the three authorities that the schema of a world inventory asks for. */
  predicate InventoryOk(items: seq<WorldItem>) {
    && 3 <= |items| <= 100_000 && Strict(ItemPaths(items))
    && Flushed(items, Actions) && Flushed(items, Checkpoints) && Flushed(items, Projections)
  }

  predicate WorldEvidenceSealed(x: Receipt<WorldEvidenceBody>) {
    && x.digest == Sealed(WorldEvidenceDomain, WorldEvidenceContent(x.body))
    && x.body.inventoryDigest == Sealed(WorldInventoryDomain, WorldInventoryContent(x.body.inventory))
    && InventoryOk(x.body.inventory)
  }

  predicate WorldEvidenceFits(r: Request, service: Receipt<WorldServiceBody>, pause: Receipt<PauseBody>,
                              x: Receipt<WorldEvidenceBody>)
  {
    && WorldEvidenceSealed(x)
    && x.body.runId == r.runId && x.body.pause == pause.digest && x.body.service == service.body.service
  }

  function OrganizationInventoryDigest(e: OrganizationEvidence.Receipt): Digest {
    Sealed(OrganizationInventoryDomain, OrganizationInventoryContent(e.files, e.missing))
  }

  predicate OrganizationEvidenceSealed(x: Receipt<OrganizationEvidenceBody>) {
    && x.digest == Sealed(OrganizationEvidenceDomain, OrganizationEvidenceContent(x.body))
    && x.body.inventoryDigest == OrganizationInventoryDigest(x.body.evidence)
    && OrganizationEvidence.Parses(OrganizationEvidence.AuthorityFor, x.body.evidence)
  }

  /** createEvidenceReceipt: the export of this run and deployment, with no failed file, divided
      among its authorities. */
  function OrganizationEvidenceOf(cfg: Configuration, r: Request, organizationPhase: Digest, x: RawExport)
    : Option<Receipt<OrganizationEvidenceBody>>
  {
    var built := OrganizationEvidence.Build(OrganizationEvidence.AuthorityFor, x.index, x.files, x.missing);
    if x.failedFiles != [] || x.deployment != cfg.deploymentName
       || x.indexDeployment != cfg.deploymentName || x.indexRunId != r.runId
       || built.None? || !OrganizationEvidence.Parses(OrganizationEvidence.AuthorityFor, built.value) then None
    else
      var b := OrganizationEvidenceBody(
        x.deployment, built.value, OrganizationInventoryDigest(built.value), organizationPhase, r.runId);
      Some(Receipt(b, Sealed(OrganizationEvidenceDomain, OrganizationEvidenceContent(b))))
  }
}
