/** The receipts of a run form one linked chain: what each phase checked when it
    was committed already implies every check made again later. */
module Chain {
  import opened Wrappers
  import opened Contracts
  import opened PhaseJournal
  import opened Receipts
  import opened Cleanup

  // ---- what each phase commits -------------------------------------------------------------

  function First(r: Request): Payload { Payload(r.runId, RequestFact(RequestDigest(r))) }

  function OwnershipOf(ps: seq<Payload>): Option<Ownership>
    requires Kinds(ps) && |ps| > 5
  {
    var prepared := ps[1].fact.preparation.body;
    var attachment := ps[5].fact.up.attachment;
    if !Attached(attachment) then None
    else Some(Ownership(
      prepared.dataNetwork, prepared.evidenceVolume, attachment.value.result.value, ps[5].fact.up.handoffHandle,
      prepared.secretBindings, ps[2].fact.resource.body.resource, ps[3].fact.service.body.service))
  }

  /** What cleanup asks of the target receipt that the up receipt may carry: there, of the attaching
      operation, with a result. Startup asks none of it. */
  predicate Attached(a: Option<Attachment>) {
    a.Some? && a.value.operation == AttachOrganization && a.value.result.Some?
  }

  /** The digest of a whole reported target, further fields included. */
  function TargetDigest(t: SelectedTarget): Digest { Sealed(PlainDomain, TargetContent(t)) }

  predicate OrganizationEvidenceLinked(cfg: Configuration, r: Request, organizationPhase: Digest,
                                       x: Receipt<OrganizationEvidenceBody>)
  {
    && OrganizationEvidenceSealed(x) && x.body.runId == r.runId && x.body.deployment == cfg.deploymentName
    && x.body.organizationPhase == organizationPhase
  }

  /** The fact at index i was accepted on the strength of the payloads before it. */
  predicate Link(cfg: Configuration, r: Request, ps: seq<Payload>, i: nat)
    requires Kinds(ps) && i < |ps|
  {
    var fact := ps[i].fact;
    match fact
    case RequestFact(d) => d == RequestDigest(r)
    case PreparedFact(x, d) => d == x.digest && PreparationFits(cfg, r, x)
    case WorldCreatedFact(x) => ResourceFits(r, ps[1].fact.preparation, x)
    case WorldStartedFact(x) => ServiceFits(r, ps[2].fact.resource, x)
    case WorldReadyFact(x, d) => d == ReadinessDigest(x) && ReadinessFits(cfg, r, x)
    case OrganizationStartedFact(x, d) => d == UpDigest(x) && UpFits(cfg, r, x, false)
    case OrganizationReadyFact(release, handoff, ready, d) =>
      && d.Sealed? && d.content.UpReceiptContent? && d == UpDigest(d.content.up)
      && UpFits(cfg, r, d.content.up, true)
      && release == d.content.up.release && handoff == d.content.up.handoff
      && ready == d.content.up.ready.value
    case TopologyFact(x, d) =>
      && d == x.digest && CapabilitiesMet(r, ps[4].fact.readiness)
      && AttestationFits(cfg, r, PhaseDigest(ps, 4), PhaseDigest(ps, 6), x)
    case ActivatedFact(x, d) => d == x.digest && ActivationFits(r, ps[7].fact.attestation, x)
    case TickFact(x, d) => d == x.digest && TickFits(r, ps[8].fact.activation, PhaseDigest(ps, 4), x)
    case RunningFact(x, d) =>
      && d == x.digest && TickInRange(cfg)
      && x == RunningOf(r, ps[8].fact.activationDigest, ps[9].fact.tickDigest)
    case TerminalFact(x, d) => d == x.digest && TerminalFits(cfg, r, ps[10].fact.running, x)
    case PausedFact(x, d) =>
      d == x.digest && PauseFits(r, ps[3].fact.service, ps[11].fact.terminal, x)
    case WorldEvidenceFact(x, d) =>
      d == x.digest && WorldEvidenceFits(r, ps[3].fact.service, ps[12].fact.pause, x)
    case OrganizationEvidenceFact(x, d) =>
      d == x.digest && OrganizationEvidenceLinked(cfg, r, PhaseDigest(ps, 6), x)
    case CleanedFact(x, d) =>
      && d == x.digest && EvidenceCorrelates(r, ps) && OwnershipChecks(r, ps)
      && x == CleanupOf(r, OwnershipOf(ps).value, x.body.operations)
      && |x.body.operations| == 5 && OperationsFit(r, OwnershipOf(ps).value, x.body.operations)
    case CompletedFact(x, d) => d == x.digest
  }

  predicate Linked(cfg: Configuration, r: Request, ps: seq<Payload>) {
    && 1 <= |ps| <= 17 && Kinds(ps)
    && (forall i :: 0 <= i < |ps| ==> ps[i].runId == r.runId && Link(cfg, r, ps, i))
  }

  // ---- what is checked again later --------------------------------------------------------------

  /** verifyEvidenceCorrelation, over the payloads before cleanup. */
  predicate EvidenceCorrelates(r: Request, ps: seq<Payload>)
    requires Kinds(ps) && |ps| > 14
  {
    var world, worldDigest := ps[13].fact.worldEvidence, ps[13].fact.worldEvidenceDigest;
    var organization, organizationDigest := ps[14].fact.organizationEvidence, ps[14].fact.organizationEvidenceDigest;
    var pause, terminal, service := ps[12].fact.pause, ps[11].fact.terminal, ps[3].fact.service;
    var owner := ps[5].fact.up;
    && WorldEvidenceSealed(world) && OrganizationEvidenceSealed(organization)
    && PauseSealed(pause) && TerminalSealed(terminal) && ServiceSealed(service)
    && Attached(owner.attachment)
    && world.body.runId == r.runId && worldDigest == world.digest
    && world.body.pause == pause.digest && world.body.service == service.body.service
    && pause.body.runId == r.runId && pause.body.service == service.body.service
    && pause.body.terminal == terminal.digest && pause.body.finalTick == terminal.body.terminalTick
    && terminal.body.runId == r.runId && service.body.runId == r.runId
    && organization.body.runId == r.runId && organizationDigest == organization.digest
    && organization.body.deployment == owner.deploymentName
    && organization.body.organizationPhase == PhaseDigest(ps, 6)
  }

  /** deriveOwnership, over the payloads before cleanup. */
  predicate OwnershipChecks(r: Request, ps: seq<Payload>)
    requires Kinds(ps) && |ps| > 5
  {
    var x := ps[1].fact.preparation;
    var b, up := x.body, ps[5].fact.up;
    && PreparationSealed(x) && ResourceSealed(ps[2].fact.resource) && ServiceSealed(ps[3].fact.service)
    && b.runId == r.runId && x.digest == ps[1].fact.preparationDigest && b.descriptor == r.descriptor
    && b.organizationArtifact == r.organizationArtifact && b.worldBindings == r.worldBindings
    && b.artifactManifest == r.artifactManifest && b.bundle == r.bundle && b.selector == r.selector
    && up.runId == r.runId && up.handoff.body.selectedTargetReceipt == TargetDigest(b.selected)
    && OwnershipOf(ps).Some? && DistinctHandles(OwnershipOf(ps).value)
  }

  /** The checks the startup stages repeat on committed payloads. */
  predicate StartupRechecks(cfg: Configuration, r: Request, ps: seq<Payload>)
    requires Kinds(ps)
  {
    && (|ps| > 1 ==>
          && PreparationFits(cfg, r, ps[1].fact.preparation)
          && ps[1].fact.preparation.digest == ps[1].fact.preparationDigest)
    && (|ps| > 2 ==> ResourceSealed(ps[2].fact.resource))
    && (|ps| > 3 ==> ServiceSealed(ps[3].fact.service))
    && (|ps| > 5 ==> UpFits(cfg, r, ps[5].fact.up, false))
  }

  /** The checks the activation, supervision, finalization and cleanup stages repeat. */
  predicate LaterRechecks(cfg: Configuration, r: Request, ps: seq<Payload>)
    requires Kinds(ps)
  {
    && (|ps| > 4 ==> ReadinessWellFormed(ps[4].fact.readiness))
    && (|ps| > 7 ==>
          && CapabilitiesMet(r, ps[4].fact.readiness)
          && AttestationFits(cfg, r, PhaseDigest(ps, 4), PhaseDigest(ps, 6), ps[7].fact.attestation))
    && (|ps| > 8 ==> ActivationFits(r, ps[7].fact.attestation, ps[8].fact.activation))
    && (|ps| > 10 ==> ps[10].fact.running.digest == Sealed(RunningDomain, RunningContent(ps[10].fact.running.body)))
    && (|ps| > 10 ==> TickInRange(cfg))
    && (|ps| > 11 ==> TerminalSealed(ps[11].fact.terminal))
    && (|ps| > 12 ==> PauseSealed(ps[12].fact.pause))
    && (|ps| > 15 ==> EvidenceCorrelates(r, ps) && CleanupParses(ps[15].fact.cleanup))
  }

  /** The cross-check at the head of completeReceipt. */
  predicate TerminalCrossCheck(r: Request, ps: seq<Payload>)
    requires Kinds(ps) && |ps| > 15
  {
    var cleanup, world := ps[15].fact.cleanup, ps[13].fact.worldEvidence;
    var organization, topology := ps[14].fact.organizationEvidence, ps[7].fact.attestation;
    var activation, pause, service := ps[8].fact.activation, ps[12].fact.pause, ps[3].fact.service;
    && CleanupParses(cleanup) && WorldEvidenceSealed(world) && OrganizationEvidenceSealed(organization)
    && AttestationSealed(topology) && ActivationSealed(activation) && PauseSealed(pause) && ServiceSealed(service)
    && cleanup.body.runId == r.runId && world.body.runId == r.runId
    && world.body.pause == pause.digest && world.body.service == service.body.service
    && organization.body.runId == r.runId && organization.body.organizationPhase == PhaseDigest(ps, 6)
    && topology.body.runId == r.runId && activation.body.runId == r.runId
    && activation.body.attestation == topology.digest
    && activation.body.activation.body.marker.topologyReceipt == topology.body.topology.digest
    && activation.body.activation.body.marker.topologyRequest == topology.body.topology.body.requestDigest
  }

  // ---- the chain implies every later check ---------------------------------------------------------

  // One committed phase at a time: what its check left behind.

  lemma {:induction false} PreparedCommitted(cfg: Configuration, r: Request, ps: seq<Payload>)
    requires Linked(cfg, r, ps) && |ps| > 1
    ensures Kinds(ps) && PreparationFits(cfg, r, ps[1].fact.preparation)
    ensures ps[1].fact.preparation.digest == ps[1].fact.preparationDigest
  {
    hide PreparationFits;
    assert Link(cfg, r, ps, 1) && KindAt(1, ps[1].fact);
  }

  lemma {:induction false} ResourceCommitted(cfg: Configuration, r: Request, ps: seq<Payload>)
    requires Linked(cfg, r, ps) && |ps| > 2
    ensures Kinds(ps) && ResourceFits(r, ps[1].fact.preparation, ps[2].fact.resource)
  {
    hide ResourceFits;
    assert Link(cfg, r, ps, 2) && KindAt(1, ps[1].fact) && KindAt(2, ps[2].fact);
  }

  lemma {:induction false} ServiceCommitted(cfg: Configuration, r: Request, ps: seq<Payload>)
    requires Linked(cfg, r, ps) && |ps| > 3
    ensures Kinds(ps) && ServiceFits(r, ps[2].fact.resource, ps[3].fact.service)
  {
    hide ServiceFits;
    assert Link(cfg, r, ps, 3) && KindAt(2, ps[2].fact) && KindAt(3, ps[3].fact);
  }

  lemma {:induction false} ReadinessCommitted(cfg: Configuration, r: Request, ps: seq<Payload>)
    requires Linked(cfg, r, ps) && |ps| > 4
    ensures Kinds(ps) && ReadinessFits(cfg, r, ps[4].fact.readiness)
    ensures ps[4].fact.readinessDigest == ReadinessDigest(ps[4].fact.readiness)
  {
    hide ReadinessFits;
    assert Link(cfg, r, ps, 4) && KindAt(4, ps[4].fact);
  }

  lemma {:induction false} UpCommitted(cfg: Configuration, r: Request, ps: seq<Payload>)
    requires Linked(cfg, r, ps) && |ps| > 5
    ensures Kinds(ps) && UpFits(cfg, r, ps[5].fact.up, false)
  {
    hide UpFits;
    assert Link(cfg, r, ps, 5) && KindAt(5, ps[5].fact);
  }

  lemma {:induction false} TopologyCommitted(cfg: Configuration, r: Request, ps: seq<Payload>)
    requires Linked(cfg, r, ps) && |ps| > 7
    ensures Kinds(ps) && CapabilitiesMet(r, ps[4].fact.readiness)
    ensures AttestationFits(cfg, r, PhaseDigest(ps, 4), PhaseDigest(ps, 6), ps[7].fact.attestation)
  {
    hide AttestationFits, CapabilitiesMet;
    assert Link(cfg, r, ps, 7) && KindAt(4, ps[4].fact) && KindAt(7, ps[7].fact);
  }

  lemma {:induction false} ActivationCommitted(cfg: Configuration, r: Request, ps: seq<Payload>)
    requires Linked(cfg, r, ps) && |ps| > 8
    ensures Kinds(ps) && ActivationFits(r, ps[7].fact.attestation, ps[8].fact.activation)
  {
    hide ActivationFits;
    assert Link(cfg, r, ps, 8) && KindAt(7, ps[7].fact) && KindAt(8, ps[8].fact);
  }

  lemma {:induction false} RunningCommitted(cfg: Configuration, r: Request, ps: seq<Payload>)
    requires Linked(cfg, r, ps) && |ps| > 10
    ensures Kinds(ps) && TickInRange(cfg)
    ensures ps[10].fact.running == RunningOf(r, ps[8].fact.activationDigest, ps[9].fact.tickDigest)
  {
    assert Link(cfg, r, ps, 10) && KindAt(8, ps[8].fact) && KindAt(9, ps[9].fact) && KindAt(10, ps[10].fact);
  }

  lemma {:induction false} TerminalCommitted(cfg: Configuration, r: Request, ps: seq<Payload>)
    requires Linked(cfg, r, ps) && |ps| > 11
    ensures Kinds(ps) && TerminalFits(cfg, r, ps[10].fact.running, ps[11].fact.terminal)
  {
    hide TerminalFits;
    assert Link(cfg, r, ps, 11) && KindAt(10, ps[10].fact) && KindAt(11, ps[11].fact);
  }

  lemma {:induction false} PauseCommitted(cfg: Configuration, r: Request, ps: seq<Payload>)
    requires Linked(cfg, r, ps) && |ps| > 12
    ensures Kinds(ps) && PauseFits(r, ps[3].fact.service, ps[11].fact.terminal, ps[12].fact.pause)
  {
    hide PauseFits;
    assert Link(cfg, r, ps, 12) && KindAt(3, ps[3].fact) && KindAt(11, ps[11].fact) && KindAt(12, ps[12].fact);
  }

  lemma {:induction false} WorldEvidenceCommitted(cfg: Configuration, r: Request, ps: seq<Payload>)
    requires Linked(cfg, r, ps) && |ps| > 13
    ensures Kinds(ps) && WorldEvidenceFits(r, ps[3].fact.service, ps[12].fact.pause, ps[13].fact.worldEvidence)
    ensures ps[13].fact.worldEvidenceDigest == ps[13].fact.worldEvidence.digest
  {
    hide WorldEvidenceFits;
    assert Link(cfg, r, ps, 13) && KindAt(3, ps[3].fact) && KindAt(12, ps[12].fact) && KindAt(13, ps[13].fact);
  }

  lemma {:induction false} OrganizationEvidenceCommitted(cfg: Configuration, r: Request, ps: seq<Payload>)
    requires Linked(cfg, r, ps) && |ps| > 14
    ensures Kinds(ps)
    ensures OrganizationEvidenceLinked(cfg, r, PhaseDigest(ps, 6), ps[14].fact.organizationEvidence)
    ensures ps[14].fact.organizationEvidenceDigest == ps[14].fact.organizationEvidence.digest
  {
    hide OrganizationEvidenceLinked;
    assert Link(cfg, r, ps, 14) && KindAt(14, ps[14].fact);
  }

  lemma {:induction false} CleanupCommitted(cfg: Configuration, r: Request, ps: seq<Payload>)
    requires Linked(cfg, r, ps) && |ps| > 15
    ensures Kinds(ps) && EvidenceCorrelates(r, ps) && OwnershipChecks(r, ps) && OwnershipOf(ps).Some?
    ensures
      var x := ps[15].fact.cleanup;
      && |x.body.operations| == 5 && OperationsFit(r, OwnershipOf(ps).value, x.body.operations)
      && x == CleanupOf(r, OwnershipOf(ps).value, x.body.operations)
  {
    hide EvidenceCorrelates, OperationsFit, CleanupOf;
    assert Link(cfg, r, ps, 15) && KindAt(15, ps[15].fact);
  }

  lemma {:induction false} CleanupReparses(r: Request, o: Ownership, xs: seq<Receipt<CleanupOperationBody>>)
    requires |xs| == 5 && OperationsFit(r, o, xs)
    ensures CleanupParses(CleanupOf(r, o, xs))
    ensures CleanupOf(r, o, xs).body.runId == r.runId
  {
    hide OperationParses, RemainingBefore, Releasable, Targets;
    assert forall k :: 0 <= k < 5 ==> OperationFits(r, o, k, xs[k]);
  }

  /** No check that a stage repeats on committed payloads can fail. */
  lemma {:induction false} ChainSurvivesStages(cfg: Configuration, r: Request, ps: seq<Payload>)
    requires Linked(cfg, r, ps)
    ensures StartupRechecks(cfg, r, ps) && LaterRechecks(cfg, r, ps)
  {
    StartupSurvives(cfg, r, ps);
    LaterSurvives(cfg, r, ps);
  }

  lemma {:induction false} StartupSurvives(cfg: Configuration, r: Request, ps: seq<Payload>)
    requires Linked(cfg, r, ps)
    ensures StartupRechecks(cfg, r, ps)
  {
    hide Linked, Link, PreparationFits, UpFits, ResourceSealed, ServiceSealed;
    if |ps| > 1 { PreparedCommitted(cfg, r, ps); }
    if |ps| > 2 { ResourceCommitted(cfg, r, ps); }
    if |ps| > 3 { ServiceCommitted(cfg, r, ps); }
    if |ps| > 5 { UpCommitted(cfg, r, ps); }
  }

  lemma {:induction false} LaterSurvives(cfg: Configuration, r: Request, ps: seq<Payload>)
    requires Linked(cfg, r, ps)
    ensures LaterRechecks(cfg, r, ps)
  {
    hide Linked, Link, AttestationFits, CapabilitiesMet, ActivationFits, EvidenceCorrelates, OwnershipChecks,
         OperationsFit, CleanupParses, OwnershipOf, PhaseDigest, ReadinessWellFormed, TickInRange, TerminalSealed;
    if |ps| > 4 { ReadinessCommitted(cfg, r, ps); }
    if |ps| > 7 { TopologyCommitted(cfg, r, ps); }
    if |ps| > 8 { ActivationCommitted(cfg, r, ps); }
    if |ps| > 10 { RunningCommitted(cfg, r, ps); }
    if |ps| > 11 { TerminalCommitted(cfg, r, ps); }
    if |ps| > 12 { PauseCommitted(cfg, r, ps); }
    if |ps| > 15 {
      CleanupCommitted(cfg, r, ps);
      CleanupReparses(r, OwnershipOf(ps).value, ps[15].fact.cleanup.body.operations);
    }
  }

  /** The cross-check before the terminal receipt never fires. */
  lemma {:induction false} ChainPassesTerminalCrossCheck(cfg: Configuration, r: Request, ps: seq<Payload>)
    requires Linked(cfg, r, ps) && |ps| > 15
    ensures TerminalCrossCheck(r, ps)
  {
    hide Linked, Link, CapabilitiesMet, EvidenceCorrelates, OwnershipChecks, OperationsFit, CleanupParses,
         OwnershipOf, PhaseDigest, AttestationSealed, ActivationSealed, PauseSealed, ServiceSealed,
         WorldEvidenceSealed, OrganizationEvidenceSealed, CleanupOf;
    ServiceCommitted(cfg, r, ps);
    TopologyCommitted(cfg, r, ps);
    ActivationCommitted(cfg, r, ps);
    PauseCommitted(cfg, r, ps);
    WorldEvidenceCommitted(cfg, r, ps);
    OrganizationEvidenceCommitted(cfg, r, ps);
    CleanupCommitted(cfg, r, ps);
    CleanupReparses(r, OwnershipOf(ps).value, ps[15].fact.cleanup.body.operations);
  }

  /** The evidence check before cleanup passes exactly when the committed up receipt
      carries the receipt of an attachment that succeeded and the two deployment names agree. */
  lemma {:induction false} EvidenceCorrelatesExactly(cfg: Configuration, r: Request, ps: seq<Payload>)
    requires Linked(cfg, r, ps) && |ps| > 14
    ensures EvidenceCorrelates(r, ps) <==>
      Attached(ps[5].fact.up.attachment) && cfg.deploymentName == cfg.organization.deploymentName
  {
    hide Linked, Link, Kinds, PhaseDigest, PauseSealed, ServiceSealed, TerminalSealed,
         WorldEvidenceSealed, OrganizationEvidenceSealed;
    ServiceCommitted(cfg, r, ps);
    UpCommitted(cfg, r, ps);
    TerminalCommitted(cfg, r, ps);
    PauseCommitted(cfg, r, ps);
    WorldEvidenceCommitted(cfg, r, ps);
    OrganizationEvidenceCommitted(cfg, r, ps);
  }

  /** Under the configuration an execution gives, the two names always agree. */
  lemma {:induction false} ConfiguredEvidenceCorrelates(x: Execution, r: Request, ps: seq<Payload>)
    requires Linked(ConfigurationOf(x), r, ps) && |ps| > 14
    ensures EvidenceCorrelates(r, ps) <==> Attached(ps[5].fact.up.attachment)
  {
    EvidenceCorrelatesExactly(ConfigurationOf(x), r, ps);
  }

  /** Ownership can be derived exactly when the attachment succeeded, the expectation names
      the digest of the target that was reported prepared, and the seven handles differ. */
  lemma {:induction false} OwnershipDerivesExactly(cfg: Configuration, r: Request, ps: seq<Payload>)
    requires Linked(cfg, r, ps) && |ps| > 5
    ensures OwnershipChecks(r, ps) <==>
      && Attached(ps[5].fact.up.attachment)
      && cfg.organization.selectedTargetReceipt == TargetDigest(ps[1].fact.preparation.body.selected)
      && DistinctHandles(OwnershipOf(ps).value)
  {
    hide Linked, Link, PreparationSealed, ResourceSealed, ServiceSealed, DistinctHandles;
    PreparedCommitted(cfg, r, ps);
    ResourceCommitted(cfg, r, ps);
    ServiceCommitted(cfg, r, ps);
    UpCommitted(cfg, r, ps);
  }

  // ---- the terminal receipt ------------------------------------------------------------------------

  function Payloads(es: seq<Entry>): (ps: seq<Payload>)
    ensures |ps| == |es| && forall i :: 0 <= i < |es| ==> ps[i] == es[i].payload
  {
    if es == [] then [] else Payloads(es[..|es| - 1]) + [es[|es| - 1].payload]
  }

  function TerminalJournalDigest(es: seq<Entry>, requestDigest: Digest): Digest {
    Sealed(TerminalJournalDomain,
           TerminalJournalContent(if |es| > 16 then es[..16] else es, requestDigest))
  }

  function TerminalBody(cfg: Configuration, r: Request, ps: seq<Payload>, journalDigest: Digest): TerminalReceiptBody
    requires Kinds(ps) && |ps| > 15
  {
    var preparation, cleanup := ps[1].fact.preparation, ps[15].fact.cleanup;
    var world, organization := ps[13].fact.worldEvidence.body, ps[14].fact.organizationEvidence.body;
    var topology := ps[7].fact.attestation.body.topology;
    var seal := Sealed(SealDomain, SealContent(organization.inventoryDigest, world.inventoryDigest));
    TerminalReceiptBody(
      cleanup.digest, Evidence(organization.inventoryDigest, |organization.evidence.files| + 1),
      Evidence(world.inventoryDigest, |world.inventory|), journalDigest, RequestDigest(r), r.runId, seal,
      preparation.digest, preparation.body.selected.target, r.selector, ps[8].fact.activation.digest,
      topology.body.requestDigest, topology.digest,
      Sealed(VerdictDomain, VerdictContent(cleanup.digest, seal, cfg.terminalTick)))
  }

  function SealTerminal(b: TerminalReceiptBody): Receipt<TerminalReceiptBody> {
    Receipt(b, Sealed(TerminalReceiptDomain, TerminalReceiptContent(b)))
  }

  function TerminalOf(cfg: Configuration, r: Request, es: seq<Entry>): Receipt<TerminalReceiptBody>
    requires Kinds(Payloads(es)) && |es| > 15
  {
    SealTerminal(TerminalBody(cfg, r, Payloads(es), TerminalJournalDigest(es, RequestDigest(r))))
  }

  /** A journal the executor can have built: a linked chain, and, once complete, exactly
      the terminal receipt its own entries determine. */
  predicate Chained(cfg: Configuration, b: JournalBody) {
    && 1 <= |b.entries| <= 17
    && Linked(cfg, b.request, Payloads(b.entries))
    && (|b.entries| == 17 ==>
          b.entries[16].payload.fact.terminalReceipt == TerminalOf(cfg, b.request, b.entries[..16]))
  }

  /** completedComposedRunFromJournal. */
  function CompletedReceipt(gate: Gate, j: Journal): Option<Receipt<TerminalReceiptBody>> {
    if !Valid(gate, j) || j.body.currentPhase != Completed then None
    else match j.body.entries[16].payload.fact
      case CompletedFact(x, _) =>
        if x == SealTerminal(x.body) && x.body.runId == j.body.request.runId
           && x.body.requestDigest == RequestDigest(j.body.request)
           && x.body.journalDigest == TerminalJournalDigest(j.body.entries, j.body.requestDigest)
        then Some(x) else None
      case _ => None
  }

  lemma {:induction false} PayloadsOfPrefix(es: seq<Entry>, n: nat)
    requires n <= |es|
    ensures Payloads(es[..n]) == Payloads(es)[..n]
  {
  }

  lemma {:induction false} LinkedKinds(cfg: Configuration, r: Request, ps: seq<Payload>)
    requires Linked(cfg, r, ps)
    ensures Kinds(ps)
  {
  }

  lemma {:induction false} TerminalOfIsSealed(cfg: Configuration, r: Request, es: seq<Entry>)
    requires Kinds(Payloads(es)) && |es| > 15
    ensures
      var x := TerminalOf(cfg, r, es);
      && x == SealTerminal(x.body) && x.body.runId == r.runId && x.body.requestDigest == RequestDigest(r)
      && x.body.journalDigest == TerminalJournalDigest(es, RequestDigest(r))
  {
  }

  /** The durable journal alone gives back the receipt the executor computed. */
  lemma {:induction false} CompletedReceiptFromJournal(cfg: Configuration, gate: Gate, j: Journal)
    requires Valid(gate, j) && Chained(cfg, j.body) && j.body.currentPhase == Completed
    ensures Kinds(Payloads(j.body.entries[..16])) && |j.body.entries| == 17
    ensures CompletedReceipt(gate, j) == Some(TerminalOf(cfg, j.body.request, j.body.entries[..16]))
  {
    hide Linked, Link, GateOpen, Bound, OperationsOk, StateOk, EntryOk, ClockOk, TerminalBody, JournalDigest;
    var es := j.body.entries;
    assert |es| == 17 by { EntriesMatchPhase(j.body); }
    PayloadsOfPrefix(es, 16);
    LinkedKinds(cfg, j.body.request, Payloads(es));
    assert KindAt(16, Payloads(es)[16].fact);
    TerminalOfIsSealed(cfg, j.body.request, es[..16]);
    assert es[..16][..16] == es[..16];
  }

  // ---- growing a chain --------------------------------------------------------------------------

  lemma {:induction false} LinkExtends(cfg: Configuration, r: Request, ps: seq<Payload>, qs: seq<Payload>, i: nat)
    requires Kinds(ps) && Kinds(qs) && ps <= qs && i < |ps|
    ensures Link(cfg, r, ps, i) <==> Link(cfg, r, qs, i)
  {
    hide PreparationFits, ResourceFits, ServiceFits, ReadinessFits, UpFits, AttestationFits, CapabilitiesMet,
         ActivationFits, TickFits, TickInRange, TerminalFits, PauseFits, WorldEvidenceFits, OrganizationEvidenceLinked,
         OperationsFit, CleanupOf, OrganizationEvidenceSealed, WorldEvidenceSealed, RunningOf;
  }

  lemma {:induction false} LinkedGrows(cfg: Configuration, r: Request, ps: seq<Payload>, p: Payload)
    requires Linked(cfg, r, ps) && |ps| < 17 && p.runId == r.runId && KindAt(|ps|, p.fact)
    requires Kinds(ps + [p]) && Link(cfg, r, ps + [p], |ps|)
    ensures Linked(cfg, r, ps + [p])
  {
    hide Link;
    var qs := ps + [p];
    forall i | 0 <= i < |qs| ensures qs[i].runId == r.runId && Link(cfg, r, qs, i) {
      if i < |ps| { LinkExtends(cfg, r, ps, qs, i); }
    }
  }
}
