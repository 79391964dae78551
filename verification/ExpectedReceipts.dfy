/** The receipts of a run written out: each is the seal over a body whose fields come from the
    request, the configuration and the receipts committed before it, but for those that its port is
    free to choose. What a stage accepts is exactly that, and the committed chain is made of nothing
    else. */
module ExpectedReceipts {
  import opened Wrappers
  import opened Text
  import opened Formats
  import opened Contracts
  import opened PhaseJournal
  import opened Secrets
  import opened Receipts
  import opened Cleanup
  import opened Chain
  import opened Steps
  import OrganizationEvidence

  // ---- one receipt at a time -------------------------------------------------------------------

  predicate ExpectedPreparation(cfg: Configuration, r: Request, x: Receipt<PreparationBody>) {
    var b := x.body;
    && b == PreparationBody(
         r.runId, r.descriptor, r.authProfile, r.selector, r.organizationArtifact, r.worldBindings,
         r.artifactManifest, r.bundle, SelectedTarget(cfg.topology.target, b.selected.detail),
         b.dataNetwork, b.evidenceVolume, b.secretBindings, b.worldArtifact)
    && x.digest == Sealed(PreparationDomain, PreparationContent(b))
    && |{b.dataNetwork, b.evidenceVolume, b.secretBindings, b.worldArtifact}| == 4
  }

  predicate ExpectedResource(r: Request, preparation: Digest, x: Receipt<WorldResourceBody>) {
    && x.body == WorldResourceBody(r.artifactManifest, r.bundle, preparation, x.body.resource, r.runId)
    && x.digest == Sealed(WorldResourceDomain, WorldResourceContent(x.body))
  }

  predicate ExpectedService(r: Request, resource: Contracts.Handle, x: Receipt<WorldServiceBody>) {
    && x.body == WorldServiceBody(resource, r.runId, x.body.service)
    && x.digest == Sealed(WorldServiceDomain, WorldServiceContent(x.body))
  }

  /** The expected readiness of this run, its manifests in ascending order, and nothing in it that a
      receipt may not carry. */
  predicate ExpectedReadiness(cfg: Configuration, r: Request, x: Readiness) {
    var e, cs := cfg.readiness, x.capabilities.GetOr([]);
    && x.runId == r.runId && x == Readiness(e.runId, e.bundle, x.capabilities, x.manifests, e.instance, e.detail)
    && cs == e.capabilities.GetOr([])
    && |x.manifests| >= 1 && multiset(x.manifests) == multiset(e.manifests)
    && (forall i :: 0 < i < |x.manifests| ==> Less(x.manifests[i - 1], x.manifests[i]))
    && RunIdText(x.instance) && !SecretShaped(x.instance)
    && (forall i :: 0 < i < |cs| ==> Less(cs[i - 1].identity, cs[i].identity))
    && forall i :: 0 <= i < |cs| ==>
         RunIdText(cs[i].identity) && !SecretShaped(cs[i].identity) && cs[i].manifest in x.manifests
  }

  predicate ExpectedUp(cfg: Configuration, r: Request, x: UpReceipt, ready: bool) {
    var e := cfg.organization;
    var h := HandoffBody(e.worldBinding, x.handoff.body.networkAttachment, r.runId, e.selectedTargetReceipt);
    && x.runId == r.runId && x.deploymentName == e.deploymentName && x.release == e.release
    && x.handoff == Handoff(h, Sealed(HandoffDomain, HandoffContent(h)))
    && |x.containers| >= 1 && (forall i, j :: 0 <= i < j < |x.containers| ==> x.containers[i] != x.containers[j])
    && |x.engines| >= 1 && multiset(x.engines) == multiset(e.engines.Items)
    && (forall i :: 0 <= i < |x.engines| ==>
          && RunIdText(x.engines[i].0) && !SecretShaped(x.engines[i].0)
          && RunIdText(x.engines[i].1) && !SecretShaped(x.engines[i].1))
    && (x.baseUrl.None? <==> e.release.None?)
    && (e.release.Some? ==> ReleaseText(e.release.value.version, e.release.value.revision))
    && (ready ==> x.ready == Some(ReadyRecord(x.fingerprint, r.runId, e.unitId, e.worldBinding)))
  }

  predicate ExpectedAttestation(cfg: Configuration, r: Request, world: Payload, organization: Payload,
                                x: Receipt<AttestationBody>)
  {
    var t := x.body.topology.body;
    && t == TargetTopologyBody(r.descriptor, cfg.topology.requestDigest.GetOr(t.requestDigest), r.runId,
                               cfg.topology.target)
    && x.body == AttestationBody(
         Sealed(PhaseDomain(OrganizationReady), PayloadContent(organization)),
         Sealed(RequestDomain, RequestContent(r)), r.runId,
         Receipt(t, Sealed(TargetTopologyDomain, TargetTopologyContent(t))),
         Sealed(PhaseDomain(WorldReady), PayloadContent(world)))
    && x.digest == Sealed(AttestationDomain, AttestationContent(x.body))
  }

  predicate ExpectedActivation(r: Request, attestation: Receipt<AttestationBody>, x: Receipt<ActivationBody>) {
    var topology := attestation.body.topology;
    var m := ActivationMarker(r.artifactManifest, r.runId, topology.digest, topology.body.requestDigest);
    var t := TargetActivationBody(m, Sealed(ActivationMarkerDomain, ActivationMarkerContent(m)));
    && x.body == ActivationBody(attestation.digest, r.runId,
                                Receipt(t, Sealed(TargetActivationDomain, TargetActivationContent(t))))
    && x.digest == Sealed(ActivationDomain, ActivationContent(x.body))
  }

  predicate ExpectedTick(r: Request, activation: Digest, world: Payload, x: Receipt<TickBody>) {
    var n := x.body.completedTick;
    && x.body == TickBody(activation, n, n + 1, r.runId, Sealed(PhaseDomain(WorldReady), PayloadContent(world)))
    && x.digest == Sealed(TickDomain, TickContent(x.body))
    && 1 <= n <= 1_000_000_000
  }

  predicate ExpectedRunning(r: Request, activation: Digest, tick: Digest, x: Receipt<RunningBody>) {
    x.body == RunningBody(activation, tick, r.runId) && x.digest == Sealed(RunningDomain, RunningContent(x.body))
  }

  predicate ExpectedTerminal(cfg: Configuration, r: Request, running: Digest, x: Receipt<WorldTerminalBody>) {
    && x.body == WorldTerminalBody(x.body.outcome, ReasonCompleted, r.runId, running, cfg.terminalTick)
    && x.digest == Sealed(WorldTerminalDomain, WorldTerminalContent(x.body))
  }

  predicate ExpectedPause(r: Request, service: Contracts.Handle, terminal: Receipt<WorldTerminalBody>,
                          x: Receipt<PauseBody>)
  {
    && x.body == PauseBody(terminal.body.terminalTick, r.runId, service, terminal.digest)
    && x.digest == Sealed(PauseDomain, PauseContent(x.body))
  }

  predicate ExpectedWorldEvidence(r: Request, service: Contracts.Handle, pause: Digest,
                                  x: Receipt<WorldEvidenceBody>)
  {
    var items := x.body.inventory;
    && x.body == WorldEvidenceBody(
         x.body.exportHandle, items, Sealed(WorldInventoryDomain, WorldInventoryContent(items)), pause, r.runId,
         service)
    && x.digest == Sealed(WorldEvidenceDomain, WorldEvidenceContent(x.body))
    && 3 <= |items| <= 100_000
    && (forall i :: 0 < i < |items| ==> Less(items[i - 1].path, items[i].path))
    && (exists i :: 0 <= i < |items| && items[i].authority == Actions)
    && (exists i :: 0 <= i < |items| && items[i].authority == Checkpoints)
    && exists i :: 0 <= i < |items| && items[i].authority == Projections
  }

  /** The export of this run and deployment, complete, in order, and with what every authority has to
      leave. */
  ghost predicate ExpectedExport(cfg: Configuration, r: Request, x: RawExport) {
    && x.failedFiles == [] && x.deployment == cfg.deploymentName
    && x.indexDeployment == cfg.deploymentName && x.indexRunId == r.runId
    && OrganizationEvidence.Exportable(x.files, x.missing)
  }

  predicate ExpectedOrganizationEvidence(cfg: Configuration, r: Request, organization: Payload,
                                         x: Receipt<OrganizationEvidenceBody>)
  {
    var e := x.body.evidence;
    && x.body == OrganizationEvidenceBody(
         cfg.deploymentName, e, Sealed(OrganizationInventoryDomain, OrganizationInventoryContent(e.files, e.missing)),
         Sealed(PhaseDomain(OrganizationReady), PayloadContent(organization)), r.runId)
    && x.digest == Sealed(OrganizationEvidenceDomain, OrganizationEvidenceContent(x.body))
  }

  // ---- what a stage accepts ------------------------------------------------------------------------

  /** The answer that the phase after these payloads asks for. */
  ghost predicate Expected(cfg: Configuration, r: Request, ps: seq<Payload>, reply: Reply)
    requires Kinds(ps) && ByOneCall(|ps|)
  {
    match (|ps|, reply)
    case (1, PreparationReply(x)) => ExpectedPreparation(cfg, r, x)
    case (2, ResourceReply(x)) => ExpectedResource(r, ps[1].fact.preparation.digest, x)
    case (3, ServiceReply(x)) => ExpectedService(r, ps[2].fact.resource.body.resource, x)
    case (4, ReadinessReply(x)) => ExpectedReadiness(cfg, r, x)
    case (5, UpReply(x)) => ExpectedUp(cfg, r, x, false)
    case (6, UpReply(x)) => ExpectedUp(cfg, r, x, true)
    case (7, AttestationReply(x)) => ExpectedAttestation(cfg, r, ps[4], ps[6], x)
    case (8, ActivationReply(x)) => ExpectedActivation(r, ps[7].fact.attestation, x)
    case (9, TickReply(x)) => ExpectedTick(r, ps[8].fact.activation.digest, ps[4], x)
    case (11, TerminalReply(x)) => ExpectedTerminal(cfg, r, ps[10].fact.running.digest, x)
    case (12, PauseReply(x)) => ExpectedPause(r, ps[3].fact.service.body.service, ps[11].fact.terminal, x)
    case (13, WorldEvidenceReply(x)) =>
      ExpectedWorldEvidence(r, ps[3].fact.service.body.service, ps[12].fact.pause.digest, x)
    case (14, ExportReply(x)) => ExpectedExport(cfg, r, x)
    case _ => false
  }

  /** What is committed of an answer: the receipt, under its digest. */
  predicate Carries(fact: Fact, reply: Reply) {
    match (fact, reply)
    case (PreparedFact(x, d), PreparationReply(y)) => x == y && d == y.digest
    case (WorldCreatedFact(x), ResourceReply(y)) => x == y
    case (WorldStartedFact(x), ServiceReply(y)) => x == y
    case (WorldReadyFact(x, d), ReadinessReply(y)) => x == y && d == Sealed(ReadinessDomain, ReadinessContent(y))
    case (OrganizationStartedFact(x, d), UpReply(y)) => x == y && d == Sealed(UpReceiptDomain, UpReceiptContent(y))
    case (OrganizationReadyFact(release, handoff, ready, d), UpReply(y)) =>
      && release == y.release && handoff == y.handoff && Some(ready) == y.ready
      && d == Sealed(UpReceiptDomain, UpReceiptContent(y))
    case (TopologyFact(x, d), AttestationReply(y)) => x == y && d == y.digest
    case (ActivatedFact(x, d), ActivationReply(y)) => x == y && d == y.digest
    case (TickFact(x, d), TickReply(y)) => x == y && d == y.digest
    case (TerminalFact(x, d), TerminalReply(y)) => x == y && d == y.digest
    case (PausedFact(x, d), PauseReply(y)) => x == y && d == y.digest
    case (WorldEvidenceFact(x, d), WorldEvidenceReply(y)) => x == y && d == y.digest
    case (OrganizationEvidenceFact(x, d), ExportReply(y)) =>
      && d == x.digest && x.body.deployment == y.deployment
      && Some(x.body.evidence)
         == OrganizationEvidence.Build(OrganizationEvidence.AuthorityFor, y.index, y.files, y.missing)
    case _ => false
  }

  lemma {:induction false} FourDistinct(a: Contracts.Handle, b: Contracts.Handle, c: Contracts.Handle,
                                        d: Contracts.Handle)
    ensures |{a, b, c, d}| == 4 <==> a != b && a != c && a != d && b != c && b != d && c != d
  {
    if a == b { assert {a, b, c, d} == {b, c, d}; }
    if a == c || a == d { assert {a, b, c, d} == {b, c, d}; }
    if b == c || b == d { assert {a, b, c, d} == {a, c, d}; }
    if c == d { assert {a, b, c, d} == {a, b, d}; }
  }

  lemma {:induction false} PreparationExactly(cfg: Configuration, r: Request, x: Receipt<PreparationBody>)
    ensures PreparationFits(cfg, r, x) <==> ExpectedPreparation(cfg, r, x)
  {
    FourDistinct(x.body.dataNetwork, x.body.evidenceVolume, x.body.secretBindings, x.body.worldArtifact);
  }

  lemma {:induction false} ResourceExactly(r: Request, p: Receipt<PreparationBody>, x: Receipt<WorldResourceBody>)
    ensures ResourceFits(r, p, x) <==> ExpectedResource(r, p.digest, x)
  {
  }

  lemma {:induction false} ServiceExactly(r: Request, w: Receipt<WorldResourceBody>, x: Receipt<WorldServiceBody>)
    ensures ServiceFits(r, w, x) <==> ExpectedService(r, w.body.resource, x)
  {
  }

  lemma {:induction false} SortedManifests(xs: seq<Text>, es: seq<Text>)
    ensures xs == SortByKey(es, Itself) && Strict(xs) <==> multiset(xs) == multiset(es) && Strict(xs)
  {
    SortKeepsCounts(es);
    if multiset(xs) == multiset(es) && Strict(xs) {
      StrictIsSorted(xs);
      SortedIsDistinct(xs, Itself);
      DistinctByCounts(xs, es);
      SortSorts(es, Itself);
      forall t: Text ensures t in xs <==> t in SortByKey(es, Itself) {
        assert t in xs <==> t in multiset(xs);
        assert t in SortByKey(es, Itself) <==> t in multiset(SortByKey(es, Itself));
      }
      SortedUnique(xs, SortByKey(es, Itself), Itself);
    }
  }

  lemma {:induction false} ReadinessExactly(cfg: Configuration, r: Request, x: Readiness)
    ensures ReadinessFits(cfg, r, x) <==> ExpectedReadiness(cfg, r, x)
  {
    hide Less, SecretShaped, RunIdText, SortByKey;
    SortedManifests(x.manifests, cfg.readiness.manifests);
    assert Strict(x.manifests) <==> forall i :: 0 < i < |x.manifests| ==> Less(x.manifests[i - 1], x.manifests[i]);
    var cs := x.capabilities.GetOr([]);
    assert Strict(Identities(cs)) <==> forall i :: 0 < i < |cs| ==> Less(cs[i - 1].identity, cs[i].identity);
  }

  lemma {:induction false} UpExactly(cfg: Configuration, r: Request, x: UpReceipt, ready: bool)
    ensures UpFits(cfg, r, x, ready) <==> ExpectedUp(cfg, r, x, ready)
  {
    hide ReleaseText, SecretShaped, RunIdText;
  }

  lemma {:induction false} ReadyIsThere(cfg: Configuration, r: Request, x: UpReceipt)
    ensures UpFits(cfg, r, x, true) ==> x.ready.Some?
  {
  }

  lemma {:induction false} AttestationExactly(cfg: Configuration, r: Request, world: Payload, organization: Payload,
                                              x: Receipt<AttestationBody>)
    ensures
      AttestationFits(cfg, r, PayloadDigest(WorldReady, world), PayloadDigest(OrganizationReady, organization), x)
      <==> ExpectedAttestation(cfg, r, world, organization, x)
  {
  }

  lemma {:induction false} ActivationExactly(r: Request, a: Receipt<AttestationBody>, x: Receipt<ActivationBody>)
    ensures ActivationFits(r, a, x) <==> ExpectedActivation(r, a, x)
  {
  }

  lemma {:induction false} TickExactly(r: Request, a: Receipt<ActivationBody>, world: Payload, x: Receipt<TickBody>)
    ensures TickFits(r, a, PayloadDigest(WorldReady, world), x) <==> ExpectedTick(r, a.digest, world, x)
  {
  }

  lemma {:induction false} TerminalExactly(cfg: Configuration, r: Request, running: Receipt<RunningBody>,
                                           x: Receipt<WorldTerminalBody>)
    ensures TerminalFits(cfg, r, running, x) <==> ExpectedTerminal(cfg, r, running.digest, x)
  {
  }

  lemma {:induction false} PauseExactly(r: Request, s: Receipt<WorldServiceBody>, t: Receipt<WorldTerminalBody>,
                                        x: Receipt<PauseBody>)
    ensures PauseFits(r, s, t, x) <==> ExpectedPause(r, s.body.service, t, x)
  {
  }

  lemma {:induction false} WorldEvidenceExactly(r: Request, s: Receipt<WorldServiceBody>, p: Receipt<PauseBody>,
                                                x: Receipt<WorldEvidenceBody>)
    ensures WorldEvidenceFits(r, s, p, x) <==> ExpectedWorldEvidence(r, s.body.service, p.digest, x)
  {
    hide Less;
    var items := x.body.inventory;
    assert Strict(ItemPaths(items)) <==> forall i :: 0 < i < |items| ==> Less(items[i - 1].path, items[i].path);
  }

  lemma {:induction false} ExportExactly(cfg: Configuration, r: Request, organization: Payload, x: RawExport)
    ensures
      var made := OrganizationEvidenceOf(cfg, r, PayloadDigest(OrganizationReady, organization), x);
      && (made.Some? <==> ExpectedExport(cfg, r, x))
      && (made.Some? ==>
            && ExpectedOrganizationEvidence(cfg, r, organization, made.value)
            && Carries(OrganizationEvidenceFact(made.value, made.value.digest), ExportReply(x)))
  {
    hide OrganizationEvidence.Build, OrganizationEvidence.Parses, OrganizationEvidence.Exportable,
         OrganizationEvidence.AuthorityFor;
    OrganizationEvidence.ExportableExactly(x.index, x.files, x.missing);
  }

  lemma {:induction false} PhaseDigests(ps: seq<Payload>)
    ensures |ps| > 4 ==> PhaseDigest(ps, 4) == PayloadDigest(WorldReady, ps[4])
    ensures |ps| > 6 ==> PhaseDigest(ps, 6) == PayloadDigest(OrganizationReady, ps[6])
  {
  }

  lemma {:induction false} StartupAcceptedExactly(cfg: Configuration, r: Request, ps: seq<Payload>, reply: Reply)
    requires Kinds(ps) && ByOneCall(|ps|) && |ps| <= 6
    ensures Accept(cfg, r, ps, reply).Some? <==> Expected(cfg, r, ps, reply)
    ensures Accept(cfg, r, ps, reply).Some? ==>
      KindAt(|ps|, Accept(cfg, r, ps, reply).value) && Carries(Accept(cfg, r, ps, reply).value, reply)
  {
    hide PreparationFits, ResourceFits, ServiceFits, ReadinessFits, UpFits, AttestationFits, ActivationFits,
         TickFits, TerminalFits, PauseFits, WorldEvidenceFits, OrganizationEvidenceOf, PhaseDigest, PayloadDigest,
         ExpectedPreparation, ExpectedResource, ExpectedService, ExpectedReadiness, ExpectedUp, ExpectedAttestation,
         ExpectedActivation, ExpectedTick, ExpectedTerminal, ExpectedPause, ExpectedWorldEvidence, ExpectedExport;
    match (|ps|, reply) {
      case (1, PreparationReply(x)) => PreparationExactly(cfg, r, x);
      case (2, ResourceReply(x)) => ResourceExactly(r, ps[1].fact.preparation, x);
      case (3, ServiceReply(x)) => ServiceExactly(r, ps[2].fact.resource, x);
      case (4, ReadinessReply(x)) => ReadinessExactly(cfg, r, x);
      case (5, UpReply(x)) => UpExactly(cfg, r, x, false);
      case (6, UpReply(x)) =>
        UpExactly(cfg, r, x, true);
        ReadyIsThere(cfg, r, x);
      case _ =>
    }
  }

  lemma {:induction false} ActivationAcceptedExactly(cfg: Configuration, r: Request, ps: seq<Payload>, reply: Reply)
    requires Kinds(ps) && ByOneCall(|ps|) && 7 <= |ps| <= 9
    ensures Accept(cfg, r, ps, reply).Some? <==> Expected(cfg, r, ps, reply)
    ensures Accept(cfg, r, ps, reply).Some? ==>
      KindAt(|ps|, Accept(cfg, r, ps, reply).value) && Carries(Accept(cfg, r, ps, reply).value, reply)
  {
    hide PreparationFits, ResourceFits, ServiceFits, ReadinessFits, UpFits, AttestationFits, ActivationFits,
         TickFits, TerminalFits, PauseFits, WorldEvidenceFits, OrganizationEvidenceOf, PhaseDigest, PayloadDigest,
         ExpectedPreparation, ExpectedResource, ExpectedService, ExpectedReadiness, ExpectedUp, ExpectedAttestation,
         ExpectedActivation, ExpectedTick, ExpectedTerminal, ExpectedPause, ExpectedWorldEvidence, ExpectedExport;
    PhaseDigests(ps);
    match (|ps|, reply) {
      case (7, AttestationReply(x)) => AttestationExactly(cfg, r, ps[4], ps[6], x);
      case (8, ActivationReply(x)) => ActivationExactly(r, ps[7].fact.attestation, x);
      case (9, TickReply(x)) => TickExactly(r, ps[8].fact.activation, ps[4], x);
      case _ =>
    }
  }

  lemma {:induction false} EndAcceptedExactly(cfg: Configuration, r: Request, ps: seq<Payload>, reply: Reply)
    requires Kinds(ps) && ByOneCall(|ps|) && 11 <= |ps|
    ensures Accept(cfg, r, ps, reply).Some? <==> Expected(cfg, r, ps, reply)
    ensures Accept(cfg, r, ps, reply).Some? ==>
      KindAt(|ps|, Accept(cfg, r, ps, reply).value) && Carries(Accept(cfg, r, ps, reply).value, reply)
  {
    hide PreparationFits, ResourceFits, ServiceFits, ReadinessFits, UpFits, AttestationFits, ActivationFits,
         TickFits, TerminalFits, PauseFits, WorldEvidenceFits, OrganizationEvidenceOf, PhaseDigest, PayloadDigest,
         ExpectedPreparation, ExpectedResource, ExpectedService, ExpectedReadiness, ExpectedUp, ExpectedAttestation,
         ExpectedActivation, ExpectedTick, ExpectedTerminal, ExpectedPause, ExpectedWorldEvidence, ExpectedExport;
    PhaseDigests(ps);
    match (|ps|, reply) {
      case (11, TerminalReply(x)) => TerminalExactly(cfg, r, ps[10].fact.running, x);
      case (12, PauseReply(x)) => PauseExactly(r, ps[3].fact.service, ps[11].fact.terminal, x);
      case (13, WorldEvidenceReply(x)) => WorldEvidenceExactly(r, ps[3].fact.service, ps[12].fact.pause, x);
      case (14, ExportReply(x)) => ExportExactly(cfg, r, ps[6], x);
      case _ =>
    }
  }

  /** An answer is accepted exactly if it is the expected one, and then what is committed carries it. */
  lemma {:induction false} AcceptedExactly(cfg: Configuration, r: Request, ps: seq<Payload>, reply: Reply)
    requires Kinds(ps) && ByOneCall(|ps|)
    ensures Accept(cfg, r, ps, reply).Some? <==> Expected(cfg, r, ps, reply)
    ensures Accept(cfg, r, ps, reply).Some? ==>
      KindAt(|ps|, Accept(cfg, r, ps, reply).value) && Carries(Accept(cfg, r, ps, reply).value, reply)
  {
    hide Accept, Expected, Carries, KindAt, Kinds;
    if |ps| <= 6 {
      StartupAcceptedExactly(cfg, r, ps, reply);
    } else if |ps| <= 9 {
      ActivationAcceptedExactly(cfg, r, ps, reply);
    } else {
      EndAcceptedExactly(cfg, r, ps, reply);
    }
  }
}
