/** What a committed history says, read off its payloads: how each receipt follows from those before
    it, what every call to a port was made of, and what the terminal receipt adds up to. */
module CommittedRun {
  import opened Wrappers
  import opened Text
  import opened Contracts
  import opened PhaseJournal
  import opened Receipts
  import opened Cleanup
  import opened Chain
  import opened Steps
  import opened ExpectedReceipts
  import OrganizationEvidence

  // ---- capabilities --------------------------------------------------------------------------------

  /** The last capability of that name has a manifest that the world attested. */
  predicate Offered(identity: Text, x: Readiness) {
    var cs := x.capabilities.GetOr([]);
    exists i :: 0 <= i < |cs| && LastOf(cs, i, identity) && cs[i].manifest in x.manifests
  }

  predicate LastOf(cs: seq<Capability>, i: nat, identity: Text)
    requires i < |cs|
  {
    cs[i].identity == identity && forall j :: i < j < |cs| ==> cs[j].identity != identity
  }

  lemma {:induction false} ManifestOfLast(cs: seq<Capability>, identity: Text)
    ensures ManifestOf(cs, identity).None? <==> forall i :: 0 <= i < |cs| ==> cs[i].identity != identity
    ensures forall i :: 0 <= i < |cs| && LastOf(cs, i, identity) ==> ManifestOf(cs, identity) == Some(cs[i].manifest)
    ensures ManifestOf(cs, identity).Some? ==> exists i :: 0 <= i < |cs| && LastOf(cs, i, identity)
  {
    if cs != [] {
      ManifestOfLast(cs[1..], identity);
      assert forall i :: 0 < i < |cs| ==> cs[i] == cs[1..][i - 1];
      if i :| 0 <= i < |cs[1..]| && LastOf(cs[1..], i, identity) {
        assert LastOf(cs, i + 1, identity);
      } else if cs[0].identity == identity {
        assert LastOf(cs, 0, identity);
      }
      forall i | 0 <= i < |cs| && LastOf(cs, i, identity)
        ensures ManifestOf(cs, identity) == Some(cs[i].manifest)
      {
        if i > 0 { assert LastOf(cs[1..], i - 1, identity); }
      }
    }
  }

  /** The topology may not be asked for: a capability that the request needs is not offered. */
  predicate Withheld(r: Request, ps: seq<Payload>)
    requires Kinds(ps)
  {
    |ps| == 7 && exists i :: 0 <= i < |r.capabilities| && !Offered(r.capabilities[i], ps[4].fact.readiness)
  }

  /** The topology is attested only when every capability asked for is offered, and then it is. */
  lemma {:induction false} MayCallExactly(r: Request, ps: seq<Payload>)
    requires Kinds(ps)
    ensures MayCall(r, ps) <==> !Withheld(r, ps)
  {
    hide ManifestOf;
    if |ps| == 7 {
      var x := ps[4].fact.readiness;
      forall i | 0 <= i < |r.capabilities|
        ensures Offered(r.capabilities[i], x) <==>
          var m := ManifestOf(x.Advertised(), r.capabilities[i]);
          m.Some? && m.value in x.manifests
      {
        ManifestOfLast(x.Advertised(), r.capabilities[i]);
      }
    }
  }

  // ---- how each receipt follows ----------------------------------------------------------------------

  ghost predicate HasAttachment(ps: seq<Payload>)
    requires Kinds(ps) && |ps| > 5
  {
    exists result :: ps[5].fact.up.attachment == Some(Attachment(AttachOrganization, Some(result)))
  }

  /** What the committed receipts show to be owned. */
  function Owned(ps: seq<Payload>): Ownership
    requires Kinds(ps) && |ps| > 5 && ps[5].fact.up.attachment.Some? && ps[5].fact.up.attachment.value.result.Some?
  {
    Ownership(
      ps[1].fact.preparation.body.dataNetwork, ps[1].fact.preparation.body.evidenceVolume,
      ps[5].fact.up.attachment.value.result.value, ps[5].fact.up.handoffHandle,
      ps[1].fact.preparation.body.secretBindings, ps[2].fact.resource.body.resource, ps[3].fact.service.body.service)
  }

  ghost predicate WovenAt(cfg: Configuration, r: Request, ps: seq<Payload>, i: nat)
    requires Kinds(ps) && i < |ps|
  {
    match ps[i].fact
    case RequestFact(d) => d == Sealed(RequestDomain, RequestContent(r))
    case PreparedFact(x, d) => d == x.digest && ExpectedPreparation(cfg, r, x)
    case WorldCreatedFact(x) => ExpectedResource(r, ps[1].fact.preparation.digest, x)
    case WorldStartedFact(x) => ExpectedService(r, ps[2].fact.resource.body.resource, x)
    case WorldReadyFact(x, d) => d == Sealed(ReadinessDomain, ReadinessContent(x)) && ExpectedReadiness(cfg, r, x)
    case OrganizationStartedFact(x, d) =>
      d == Sealed(UpReceiptDomain, UpReceiptContent(x)) && ExpectedUp(cfg, r, x, false)
    case OrganizationReadyFact(release, handoff, ready, d) =>
      && d.Sealed? && d.content.UpReceiptContent? && ExpectedUp(cfg, r, d.content.up, true)
      && Carries(ps[i].fact, UpReply(d.content.up))
    case TopologyFact(x, d) =>
      && d == x.digest && ExpectedAttestation(cfg, r, ps[4], ps[6], x)
      && forall k :: 0 <= k < |r.capabilities| ==> Offered(r.capabilities[k], ps[4].fact.readiness)
    case ActivatedFact(x, d) => d == x.digest && ExpectedActivation(r, ps[7].fact.attestation, x)
    case TickFact(x, d) => d == x.digest && ExpectedTick(r, ps[8].fact.activation.digest, ps[4], x)
    case RunningFact(x, d) =>
      && d == x.digest && ExpectedRunning(r, ps[8].fact.activation.digest, ps[9].fact.tick.digest, x)
      && 1 <= cfg.terminalTick <= 1_000_000_000
    case TerminalFact(x, d) => d == x.digest && ExpectedTerminal(cfg, r, ps[10].fact.running.digest, x)
    case PausedFact(x, d) =>
      d == x.digest && ExpectedPause(r, ps[3].fact.service.body.service, ps[11].fact.terminal, x)
    case WorldEvidenceFact(x, d) =>
      && d == x.digest
      && ExpectedWorldEvidence(r, ps[3].fact.service.body.service, ps[12].fact.pause.digest, x)
    case OrganizationEvidenceFact(x, d) => d == x.digest && ExpectedOrganizationEvidence(cfg, r, ps[6], x)
    case CleanedFact(x, d) => d == x.digest && ExpectedCleanup(cfg, r, ps, x)
    case CompletedFact(x, d) => d == x.digest
  }

  ghost predicate ExpectedCleanup(cfg: Configuration, r: Request, ps: seq<Payload>, x: Receipt<CleanupBody>)
    requires Kinds(ps) && |ps| > 15
  {
    && HasAttachment(ps) && cfg.deploymentName == cfg.organization.deploymentName
    && cfg.organization.selectedTargetReceipt
       == Sealed(PlainDomain, TargetContent(ps[1].fact.preparation.body.selected))
    && var o := Owned(ps);
       && DistinctHandles(o)
       && x.body == CleanupBody(x.body.operations, Sealed(OwnershipDomain, OwnershipContent(o)), r.runId)
       && x.digest == Sealed(CleanupDomain, CleanupContent(x.body))
       && |x.body.operations| == 5
       && forall k :: 0 <= k < 5 ==> ExpectedOperation(r, o, k, x.body.operations[k])
  }

  lemma {:induction false} OwnershipIsOwned(ps: seq<Payload>)
    requires Kinds(ps) && |ps| > 5
    ensures OwnershipOf(ps).Some? <==> HasAttachment(ps)
    ensures HasAttachment(ps) ==> OwnershipOf(ps) == Some(Owned(ps))
  {
    var a := ps[5].fact.up.attachment;
    if Attached(a) { assert a == Some(Attachment(AttachOrganization, Some(a.value.result.value))); }
  }

  /** A linked history is made of expected receipts and nothing else. */
  lemma {:induction false} LinkedIsWoven(cfg: Configuration, r: Request, ps: seq<Payload>, i: nat)
    requires Linked(cfg, r, ps) && i < |ps|
    ensures Kinds(ps) && ps[i].runId == r.runId && WovenAt(cfg, r, ps, i)
  {
    hide Linked, WovenAt;
    LinkedKinds(cfg, r, ps);
    assert ps[i].runId == r.runId by { LinkedRun(cfg, r, ps, i); }
    if i <= 6 { StartupIsWoven(cfg, r, ps, i); }
    else if i <= 10 { ActivationIsWoven(cfg, r, ps, i); }
    else { EndIsWoven(cfg, r, ps, i); }
  }

  lemma {:induction false} LinkedRun(cfg: Configuration, r: Request, ps: seq<Payload>, i: nat)
    requires Linked(cfg, r, ps) && i < |ps|
    ensures Kinds(ps) && ps[i].runId == r.runId && KindAt(i, ps[i].fact) && Link(cfg, r, ps, i) && |ps| <= 17
  {
    hide Link, KindAt;
  }

  lemma {:induction false} StartupIsWoven(cfg: Configuration, r: Request, ps: seq<Payload>, i: nat)
    requires Linked(cfg, r, ps) && i < |ps| && i <= 6 && Kinds(ps)
    ensures WovenAt(cfg, r, ps, i)
  {
    hide Linked, PreparationFits, ResourceFits, ServiceFits, ReadinessFits, UpFits,
         ExpectedPreparation, ExpectedResource, ExpectedService, ExpectedReadiness, ExpectedUp, Kinds;
    LinkedRun(cfg, r, ps, i);
    match ps[i].fact {
      case RequestFact(_) =>
      case PreparedFact(x, _) => PreparationExactly(cfg, r, x);
      case WorldCreatedFact(x) =>
        LinkedRun(cfg, r, ps, 1);
        ResourceExactly(r, ps[1].fact.preparation, x);
      case WorldStartedFact(x) =>
        LinkedRun(cfg, r, ps, 2);
        ServiceExactly(r, ps[2].fact.resource, x);
      case WorldReadyFact(x, _) => ReadinessExactly(cfg, r, x);
      case OrganizationStartedFact(x, _) => UpExactly(cfg, r, x, false);
      case OrganizationReadyFact(_, _, _, d) =>
        UpExactly(cfg, r, d.content.up, true);
        ReadyIsThere(cfg, r, d.content.up);
    }
  }

  lemma {:induction false} ActivationIsWoven(cfg: Configuration, r: Request, ps: seq<Payload>, i: nat)
    requires Linked(cfg, r, ps) && i < |ps| && 7 <= i <= 10 && Kinds(ps)
    ensures WovenAt(cfg, r, ps, i)
  {
    hide Linked, AttestationFits, ActivationFits, TickFits, Offered, CapabilitiesMet,
         ExpectedAttestation, ExpectedActivation, ExpectedTick, PhaseDigest, PayloadDigest;
    LinkedRun(cfg, r, ps, i);
    PhaseDigests(ps);
    match ps[i].fact {
      case TopologyFact(x, _) =>
        AttestationExactly(cfg, r, ps[4], ps[6], x);
        CapabilitiesOffered(r, ps);
      case ActivatedFact(x, _) => ActivationExactly(r, ps[7].fact.attestation, x);
      case TickFact(x, _) => TickExactly(r, ps[8].fact.activation, ps[4], x);
      case RunningFact(x, _) =>
        LinkedRun(cfg, r, ps, 8);
        LinkedRun(cfg, r, ps, 9);
    }
  }

  lemma {:induction false} CapabilitiesOffered(r: Request, ps: seq<Payload>)
    requires Kinds(ps) && |ps| > 4 && CapabilitiesMet(r, ps[4].fact.readiness)
    ensures forall k :: 0 <= k < |r.capabilities| ==> Offered(r.capabilities[k], ps[4].fact.readiness)
  {
    hide ManifestOf;
    forall k | 0 <= k < |r.capabilities| ensures Offered(r.capabilities[k], ps[4].fact.readiness) {
      ManifestOfLast(ps[4].fact.readiness.Advertised(), r.capabilities[k]);
    }
  }

  lemma {:induction false} EndIsWoven(cfg: Configuration, r: Request, ps: seq<Payload>, i: nat)
    requires Linked(cfg, r, ps) && i < |ps| && 11 <= i && Kinds(ps)
    ensures WovenAt(cfg, r, ps, i)
  {
    hide Linked, TerminalFits, PauseFits, WorldEvidenceFits, OrganizationEvidenceLinked, EvidenceCorrelates,
         OwnershipChecks, OperationsFit, CleanupOf, OwnershipOf, HasAttachment, Owned, ExpectedCleanup,
         ExpectedTerminal, ExpectedPause, ExpectedWorldEvidence, ExpectedOrganizationEvidence, PhaseDigest,
         PayloadDigest;
    LinkedRun(cfg, r, ps, i);
    PhaseDigests(ps);
    match ps[i].fact {
      case TerminalFact(x, _) => TerminalExactly(cfg, r, ps[10].fact.running, x);
      case PausedFact(x, _) => PauseExactly(r, ps[3].fact.service, ps[11].fact.terminal, x);
      case WorldEvidenceFact(x, _) => WorldEvidenceExactly(r, ps[3].fact.service, ps[12].fact.pause, x);
      case OrganizationEvidenceFact(x, _) => OrganizationEvidenceWoven(cfg, r, ps[6], x);
      case CleanedFact(x, _) => CleanupWoven(cfg, r, ps);
      case CompletedFact(_, _) =>
    }
  }

  lemma {:induction false} OrganizationEvidenceWoven(cfg: Configuration, r: Request, organization: Payload,
                                                     x: Receipt<OrganizationEvidenceBody>)
    requires OrganizationEvidenceLinked(cfg, r, PayloadDigest(OrganizationReady, organization), x)
    ensures ExpectedOrganizationEvidence(cfg, r, organization, x)
  {
  }

  lemma {:induction false} CleanupWoven(cfg: Configuration, r: Request, ps: seq<Payload>)
    requires Linked(cfg, r, ps) && |ps| > 15 && Kinds(ps)
    ensures ExpectedCleanup(cfg, r, ps, ps[15].fact.cleanup)
  {
    hide Linked, EvidenceCorrelates, OperationFits, ExpectedOperation, Owned, Attached, DistinctHandles, OwnershipOf,
         OwnershipChecks;
    CleanupCommitted(cfg, r, ps);
    EvidenceCorrelatesExactly(cfg, r, ps);
    OwnershipDerivesExactly(cfg, r, ps);
    OwnershipIsOwned(ps);
    var o, xs := Owned(ps), ps[15].fact.cleanup.body.operations;
    forall k | 0 <= k < 5 ensures ExpectedOperation(r, o, k, xs[k]) {
      assert OperationFits(r, o, k, xs[k]);
      OperationExactly(r, o, k, xs[k]);
    }
  }

  // ---- what the calls were made of -------------------------------------------------------------------

  /** Each call, at its phase, with the key of its operation and the receipts that were committed. */
  ghost predicate Derived(cfg: Configuration, r: Request, ps: seq<Payload>, e: Logged)
    requires Kinds(ps)
  {
    var d := Sealed(RequestDomain, RequestContent(r));
    && e.at <= |ps|
    && match e.call
       case CallPrepare(key, request) =>
         e.at == 1 && request == r && key == Sealed(KeyDomain(PreparationStage), KeyContent(PrepareRun, d))
       case CallCreateResource(key, x) =>
         && e.at == 2 && x == ps[1].fact.preparation
         && key == Sealed(KeyDomain(WorldStage), KeyContent(CreateWorldResource, d))
       case CallStartWorld(key, x) =>
         && e.at == 3 && x == ps[2].fact.resource
         && key == Sealed(KeyDomain(WorldStage), KeyContent(StartWorldPaused, d))
       case CallReadiness(x) => e.at == 4 && x == ps[3].fact.service
       case CallStartOrganization(key, id, digest) =>
         && e.at == 5 && id == r.runId && digest == ps[4].fact.readinessDigest
         && key == Sealed(KeyDomain(OrganizationStage), KeyContent(StartOrganization, d))
       case CallOrganizationReadiness(x) => e.at == 6 && x == ps[5].fact.up
       case CallAttest(organization, organizationDigest, requestDigest, id, topology, world, worldDigest) =>
         && e.at == 7 && organization == ps[6] && world == ps[4] && requestDigest == d && id == r.runId
         && organizationDigest == Sealed(PhaseDomain(OrganizationReady), PayloadContent(ps[6]))
         && worldDigest == Sealed(PhaseDomain(WorldReady), PayloadContent(ps[4]))
         && topology == cfg.topology.requestDigest.GetOr(
              Sealed(TopologyHintDomain, TopologyHintContent(organizationDigest, d, worldDigest)))
       case CallActivate(key, x) =>
         && e.at == 8 && x == ps[7].fact.attestation
         && key == Sealed(KeyDomain(TopologyStage), KeyContent(ActivateTopology, d))
       case CallFirstTick(x) => e.at == 9 && x == ps[8].fact.activation
       case CallWaitTerminal(tick, x) => e.at == 11 && tick == cfg.terminalTick && x == ps[10].fact.running
       case CallPause(key, service, terminal) =>
         && e.at == 12 && service == ps[3].fact.service && terminal == ps[11].fact.terminal
         && key == Sealed(KeyDomain(WorldFinalizationStage), KeyContent(PauseWorld, d))
       case CallExportWorld(key, x) =>
         && e.at == 13 && x == ps[12].fact.pause
         && key == Sealed(KeyDomain(WorldFinalizationStage), KeyContent(ExportWorldEvidence, d))
       case CallExportOrganization(deployment, key, digest, id) =>
         && e.at == 14 && deployment == cfg.deploymentName && id == r.runId
         && digest == Sealed(PhaseDomain(OrganizationReady), PayloadContent(ps[6]))
         && key == Sealed(KeyDomain(OrganizationExportStage), KeyContent(ExportOrganization, d))
       case CallClean(key, op, owned, ownership, id, targets) =>
         && e.at == 15 && HasAttachment(ps) && id == r.runId
         && ownership == Sealed(OwnershipDomain, OwnershipContent(Owned(ps)))
         && key == Sealed(KeyDomain(CleanupStage), KeyContent(Clean(op), d))
         && Tells(Owned(ps), op, owned, targets)
  }

  /** The handles a cleanup operation is told to act on, and those that no earlier one released. */
  ghost predicate Tells(o: Ownership, op: CleanupOperation, owned: seq<Contracts.Handle>,
                        targets: seq<Contracts.Handle>)
  {
    var resources := {o.dataNetwork, o.evidenceVolume, o.worldResource, o.worldService};
    var organization := {o.organizationAttachment, o.organizationHandoff};
    && Ascends(owned) && Ascends(targets)
    && match op
       case StopWorld =>
         targets == [o.worldService] && Elements(owned) == resources + organization + {o.secretBindings}
       case DetachOrganization =>
         && targets == [o.organizationAttachment]
         && Elements(owned) == resources + organization + {o.secretBindings}
       case DownOrganization =>
         targets == [o.organizationHandoff] && Elements(owned) == resources + {o.organizationHandoff, o.secretBindings}
       case RevokeSecretBindings =>
         targets == [o.secretBindings] && Elements(owned) == resources + {o.secretBindings}
       case CleanupTargetResources => Elements(targets) == resources && Elements(owned) == resources
  }

  lemma {:induction false} CleanCallTells(o: Ownership, k: nat)
    requires k < 5 && DistinctHandles(o)
    ensures Tells(o, OPERATIONS[k], RemainingBefore(o, k), Targets(o, OPERATIONS[k]))
  {
    hide RemainingBefore, DistinctHandles, Ascends, SortedUniqueOf, Elements;
    RemainingIs(o, k);
    TargetsAre(o, OPERATIONS[k]);
    assert {o.organizationAttachment, o.organizationHandoff} + {o.secretBindings}
        == {o.organizationAttachment, o.organizationHandoff, o.secretBindings};
  }

  /** Every call a run makes is derived from its committed receipts. */
  lemma {:induction false} CallsAreDerived(cfg: Configuration, r: Request, ps: seq<Payload>, e: Logged)
    requires Linked(cfg, r, ps) && Kinds(ps) && Allowed(cfg, r, ps, e)
    ensures Derived(cfg, r, ps, e)
  {
    hide Linked, HasAttachment, Owned, OwnershipOf, Tells, DistinctHandles, RemainingBefore, Targets, PhaseDigest,
         IsCleanCall;
    PhaseDigests(ps);
    if !ByOneCall(e.at) {
      OwnershipIsOwned(ps);
      var o := OwnershipOf(ps).value;
      var k := KeyOfCleanCall(r, o, e.call);
      CleanCallTells(o, k);
    }
  }

  // ---- what the terminal receipt adds up to -----------------------------------------------------------

  /** Every field of the terminal receipt, from the committed bodies themselves. */
  predicate Sums(cfg: Configuration, r: Request, ps: seq<Payload>, b: TerminalReceiptBody)
    requires Kinds(ps) && |ps| > 15
  {
    var organization := ps[14].fact.organizationEvidence.body.evidence;
    var world := ps[13].fact.worldEvidence.body.inventory;
    var topology := ps[7].fact.attestation.body.topology.body;
    && b.runId == r.runId && b.requestDigest == Sealed(RequestDomain, RequestContent(r))
    && b.organization == Evidence(
         Sealed(OrganizationInventoryDomain, OrganizationInventoryContent(organization.files, organization.missing)),
         |organization.files| + 1)
    && b.world == Evidence(Sealed(WorldInventoryDomain, WorldInventoryContent(world)), |world|)
    && b.cleanup == Sealed(CleanupDomain, CleanupContent(ps[15].fact.cleanup.body))
    && b.seal == Sealed(SealDomain, SealContent(b.organization.digest, b.world.digest))
    && b.verdict == Sealed(VerdictDomain, VerdictContent(b.cleanup, b.seal, cfg.terminalTick))
    && b.preparation == Sealed(PreparationDomain, PreparationContent(ps[1].fact.preparation.body))
    && b.target == cfg.topology.target && b.selector == r.selector
    && b.activation == Sealed(ActivationDomain, ActivationContent(ps[8].fact.activation.body))
    && b.topologyRequest == topology.requestDigest
    && b.topologyReceipt == Sealed(TargetTopologyDomain, TargetTopologyContent(topology))
  }

  lemma {:induction false} TerminalSums(cfg: Configuration, r: Request, ps: seq<Payload>, journalDigest: Digest)
    requires Linked(cfg, r, ps) && Kinds(ps) && |ps| > 15
    ensures Sums(cfg, r, ps, TerminalBody(cfg, r, ps, journalDigest))
  {
    hide Linked, Link, Kinds, CapabilitiesMet, EvidenceCorrelates, OwnershipChecks, OperationsFit, OwnershipOf,
         PhaseDigest;
    PreparedCommitted(cfg, r, ps);
    TopologyCommitted(cfg, r, ps);
    ActivationCommitted(cfg, r, ps);
    WorldEvidenceCommitted(cfg, r, ps);
    OrganizationEvidenceCommitted(cfg, r, ps);
    CleanupCommitted(cfg, r, ps);
  }

  /** The whole terminal receipt of a journal: those sums, the digest of its first sixteen entries, and
      the seal. */
  predicate SaysTerminal(cfg: Configuration, b: JournalBody, x: Receipt<TerminalReceiptBody>) {
    && |b.entries| == 17 && Kinds(Payloads(b.entries)) && Sums(cfg, b.request, Payloads(b.entries), x.body)
    && x.body.journalDigest == Sealed(TerminalJournalDomain, TerminalJournalContent(
         b.entries[..16], Sealed(RequestDomain, RequestContent(b.request))))
    && x.digest == Sealed(TerminalReceiptDomain, TerminalReceiptContent(x.body))
  }

  /** The receipt of a completed run says all that, and no less. */
  lemma {:induction false} CompletedReceiptSays(cfg: Configuration, gate: Gate, j: Journal)
    requires Valid(gate, j) && Chained(cfg, j.body) && j.body.currentPhase == Completed
    ensures CompletedReceipt(gate, j).Some? && SaysTerminal(cfg, j.body, CompletedReceipt(gate, j).value)
  {
    hide Valid, Linked, Link, Kinds, Payloads, Sums, TerminalBody, CompletedReceipt;
    CompletedReceiptFromJournal(cfg, gate, j);
    var es := j.body.entries;
    var ps, qs := Payloads(es), Payloads(es[..16]);
    PayloadsOfPrefix(es, 16);
    LinkedKinds(cfg, j.body.request, ps);
    LinkedPrefix(cfg, j.body.request, ps, 16);
    TerminalSums(cfg, j.body.request, qs, TerminalJournalDigest(es[..16], RequestDigest(j.body.request)));
    var x := TerminalOf(cfg, j.body.request, es[..16]);
    assert Sums(cfg, j.body.request, qs, x.body);
    SumsOfPrefix(cfg, j.body.request, ps, x.body);
    assert Sums(cfg, j.body.request, ps, x.body);
    assert x.digest == Sealed(TerminalReceiptDomain, TerminalReceiptContent(x.body));
    assert x.body.journalDigest == TerminalJournalDigest(es[..16], RequestDigest(j.body.request)) by {
      TerminalOfIsSealed(cfg, j.body.request, es[..16]);
    }
  }

  lemma {:induction false} LinkedPrefix(cfg: Configuration, r: Request, ps: seq<Payload>, n: nat)
    requires Linked(cfg, r, ps) && 1 <= n <= |ps|
    ensures Linked(cfg, r, ps[..n]) && Kinds(ps[..n])
  {
    hide Link;
    assert Kinds(ps[..n]) by { KindsOfPrefix(ps, n); }
    forall i | 0 <= i < n ensures ps[..n][i].runId == r.runId && Link(cfg, r, ps[..n], i) {
      LinkExtends(cfg, r, ps[..n], ps, i);
    }
  }

  lemma {:induction false} SumsOfPrefix(cfg: Configuration, r: Request, ps: seq<Payload>, b: TerminalReceiptBody)
    requires Kinds(ps) && |ps| > 16 && Kinds(ps[..16])
    ensures Sums(cfg, r, ps[..16], b) <==> Sums(cfg, r, ps, b)
  {
  }
}
