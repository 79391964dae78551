/** Which configurations a run can complete under at all: exactly those that a caller can
    recognise before the first call, and under them any run whose ports answer what they are
    asked for completes. */
module Completion {
  import opened Wrappers
  import opened Text
  import opened Formats
  import opened Secrets
  import opened Contracts
  import opened PhaseJournal
  import opened Receipts
  import OrganizationEvidence
  import opened Cleanup
  import opened Chain
  import opened Steps
  import opened Durable
  import opened JournalRuns
  import opened DurableRun

  /** The expected readiness is one that a world can report: in range, in order, and of this run. */
  predicate ReadinessReportable(e: Readiness, r: Request) {
    && e.manifests != [] && (forall i, j :: 0 <= i < j < |e.manifests| ==> e.manifests[i] != e.manifests[j])
    && Nameable(e.instance) && Strict(Identities(e.Advertised()))
    && (forall i :: 0 <= i < |e.Advertised()| ==>
          Nameable(e.Advertised()[i].identity) && e.Advertised()[i].manifest in e.manifests)
    && e.runId == r.runId
  }

  /** The expected engines and release are ones that an up receipt can name: the keys of the
      expectation too, which become values there and are held to the secret check only then. */
  predicate OrganizationReportable(e: OrganizationExpectation) {
    && e.engines != map[] && (forall k :: k in e.engines ==> Nameable(k) && Nameable(e.engines[k]))
    && (e.release.Some? ==> ReleaseText(e.release.value.version, e.release.value.revision))
  }

  /** The configuration agrees with the request and with the schemas of what it expects. */
  predicate Startable(cfg: Configuration, r: Request) {
    && TickInRange(cfg) && ReadinessReportable(cfg.readiness, r) && CapabilitiesMet(r, cfg.readiness)
    && OrganizationReportable(cfg.organization)
  }

  /** The digest is one of this target, under some version and further fields. */
  predicate NamesTarget(d: Digest, t: Target) {
    d.Sealed? && d.content.TargetContent? && d.content.selected.target == t && d == TargetDigest(d.content.selected)
  }

  /** And with itself: this half is not checked before cleanup. */
  predicate Runnable(cfg: Configuration, r: Request) {
    && Startable(cfg, r)
    && cfg.deploymentName == cfg.organization.deploymentName
    && NamesTarget(cfg.organization.selectedTargetReceipt, cfg.topology.target)
  }

  /** What the ports are free to answer: the target receipt that the up receipt carries, and the
      version and further fields of the target that the preparation reports. */
  datatype Manner = Manner(attachment: Option<Attachment>, detail: Name)

  /** The answers and the configuration are such that the handles can be released. */
  predicate Cleanable(cfg: Configuration, w: Manner) {
    && cfg.deploymentName == cfg.organization.deploymentName
    && cfg.organization.selectedTargetReceipt == TargetDigest(SelectedTarget(cfg.topology.target, w.detail))
    && Attached(w.attachment)
  }

  /** Runnable is what some answers can make of a startable configuration. */
  lemma {:induction false} RunnableMeansCleanable(cfg: Configuration, r: Request)
    ensures Runnable(cfg, r) <==> Startable(cfg, r) && exists w :: Cleanable(cfg, w)
    ensures Runnable(cfg, r) ==> Cleanable(cfg, Manner(ATTACHED, DetailOf(cfg)))
  {
    hide Startable;
    var d := cfg.organization.selectedTargetReceipt;
    if NamesTarget(d, cfg.topology.target) {
      assert d.content.selected == SelectedTarget(cfg.topology.target, d.content.selected.detail);
    }
    if Runnable(cfg, r) { assert Cleanable(cfg, Manner(ATTACHED, DetailOf(cfg))); }
    if w :| Cleanable(cfg, w) { assert NamesTarget(d, cfg.topology.target); }
  }

  /** The further fields that the expectation goes by. */
  function DetailOf(cfg: Configuration): Name {
    var d := cfg.organization.selectedTargetReceipt;
    if d.Sealed? && d.content.TargetContent? then d.content.selected.detail else ""
  }

  /** Some ports, each answering one call always alike, lead the run through cleanup. */
  ghost predicate Completable(cfg: Configuration, r: Request) {
    exists settled: PortCall -> Reply, ps :: Faithful(cfg, r, settled, ps) && |ps| >= 16
  }

  // ---- ports that answer what they are asked for --------------------------------------------------

  const ATTACHMENT: Contracts.Handle := [7]
  const ATTACHED := Some(Attachment(AttachOrganization, Some(ATTACHMENT)))
  const HANDOFF: Contracts.Handle := [6]
  const RESOURCE: Contracts.Handle := [5]
  const SERVICE: Contracts.Handle := [4]

  function Preparation(cfg: Configuration, r: Request, detail: Name): Receipt<PreparationBody> {
    var b := PreparationBody(r.runId, r.descriptor, r.authProfile, r.selector, r.organizationArtifact, r.worldBindings,
                             r.artifactManifest, r.bundle, SelectedTarget(cfg.topology.target, detail),
                              [0], [1], [2], [3]);
    Receipt(b, Sealed(PreparationDomain, PreparationContent(b)))
  }

  function Resource(r: Request, preparation: Digest): Receipt<WorldResourceBody> {
    var b := WorldResourceBody(r.artifactManifest, r.bundle, preparation, RESOURCE, r.runId);
    Receipt(b, Sealed(WorldResourceDomain, WorldResourceContent(b)))
  }

  function Service(r: Request, resource: Contracts.Handle): Receipt<WorldServiceBody> {
    var b := WorldServiceBody(resource, r.runId, SERVICE);
    Receipt(b, Sealed(WorldServiceDomain, WorldServiceContent(b)))
  }

  ghost function Listed(m: multiset<(Text, Text)>): (s: seq<(Text, Text)>)
    ensures multiset(s) == m
  {
    if m == multiset{} then []
    else
      var x :| x in m;
      [x] + Listed(m - multiset{x})
  }

  ghost function Up(cfg: Configuration, r: Request, a: Option<Attachment>): UpReceipt {
    var e := cfg.organization;
    var b := HandoffBody(e.worldBinding, [8], r.runId, e.selectedTargetReceipt);
    UpReceipt(e.deploymentName, ["container"], Listed(multiset(e.engines.Items)), "fingerprint", e.release,
              Handoff(b, DeploymentHandle(b)),
              HANDOFF, Some(ReadyRecord("fingerprint", r.runId, e.unitId, e.worldBinding)),
              if e.release.None? then None else Some("base"), r.runId, a)
  }

  function Attestation(cfg: Configuration, r: Request, organizationPhase: Digest, topologyRequest: Digest,
                       worldPhase: Digest): Receipt<AttestationBody>
  {
    var t := TargetTopologyBody(r.descriptor, topologyRequest, r.runId, cfg.topology.target);
    var b := AttestationBody(organizationPhase, RequestDigest(r), r.runId,
                             Receipt(t, Sealed(TargetTopologyDomain, TargetTopologyContent(t))), worldPhase);
    Receipt(b, Sealed(AttestationDomain, AttestationContent(b)))
  }

  function Activation(r: Request, attestation: Receipt<AttestationBody>): Receipt<ActivationBody> {
    var topology := attestation.body.topology;
    var m := ActivationMarker(r.artifactManifest, r.runId, topology.digest, topology.body.requestDigest);
    var t := TargetActivationBody(m, Sealed(ActivationMarkerDomain, ActivationMarkerContent(m)));
    var b := ActivationBody(attestation.digest, r.runId,
                            Receipt(t, Sealed(TargetActivationDomain, TargetActivationContent(t))));
    Receipt(b, Sealed(ActivationDomain, ActivationContent(b)))
  }

  function ReadyPayload(cfg: Configuration, r: Request): Payload {
    Payload(r.runId, WorldReadyFact(Reported(cfg.readiness), ReadinessDigest(Reported(cfg.readiness))))
  }

  function WorldPhase(cfg: Configuration, r: Request): Digest {
    PayloadDigest(WorldReady, ReadyPayload(cfg, r))
  }

  function Tick(cfg: Configuration, r: Request, activation: Digest): Receipt<TickBody> {
    var b := TickBody(activation, 1, 2, r.runId, WorldPhase(cfg, r));
    Receipt(b, Sealed(TickDomain, TickContent(b)))
  }

  function Terminated(r: Request, tick: int, running: Digest): Receipt<WorldTerminalBody> {
    var b := WorldTerminalBody(Foreign("outcome"), ReasonCompleted, r.runId, running, tick);
    Receipt(b, Sealed(WorldTerminalDomain, WorldTerminalContent(b)))
  }

  function Pause(r: Request, service: Contracts.Handle, terminal: Receipt<WorldTerminalBody>): Receipt<PauseBody> {
    var b := PauseBody(terminal.body.terminalTick, r.runId, service, terminal.digest);
    Receipt(b, Sealed(PauseDomain, PauseContent(b)))
  }

  const INVENTORY := [WorldItem(Actions, [97]), WorldItem(Checkpoints, [98]), WorldItem(Projections, [99])]

  function WorldExport(r: Request, pause: Receipt<PauseBody>): Receipt<WorldEvidenceBody> {
    var b := WorldEvidenceBody([9], INVENTORY, Sealed(WorldInventoryDomain, WorldInventoryContent(INVENTORY)),
                               pause.digest, r.runId, pause.body.service);
    Receipt(b, Sealed(WorldEvidenceDomain, WorldEvidenceContent(b)))
  }

  function Released(op: CleanupOperation, owned: seq<Contracts.Handle>, ownership: Digest, runId: Name,
                    targets: seq<Contracts.Handle>): Receipt<CleanupOperationBody>
  {
    var released := if op == StopWorld then [] else targets;
    var b := CleanupOperationBody(op, ownership, released, Without(owned, released), runId, true, targets);
    Receipt(b, Sealed(CleanupOperationDomain, CleanupOperationContent(b)))
  }

  /** One file of each authority that has to be represented. */
  const FILES := [OrganizationEvidence.RawFile(OrganizationEvidence.DAIMON + [97], 1, "daimon"),
                  OrganizationEvidence.RawFile(OrganizationEvidence.MOLTNET + [97], 1, "moltnet")]

  /** Each call is answered with what it asks for; in a manner that is left open. */
  ghost function Answer(cfg: Configuration, r: Request, w: Manner, c: PortCall): Reply {
    match c
    case CallPrepare(_, _) => PreparationReply(Preparation(cfg, r, w.detail))
    case CallCreateResource(_, preparation) => ResourceReply(Resource(r, preparation.digest))
    case CallStartWorld(_, resource) => ServiceReply(Service(r, resource.body.resource))
    case CallReadiness(_) => ReadinessReply(Reported(cfg.readiness))
    case CallStartOrganization(_, _, _) => UpReply(Up(cfg, r, w.attachment))
    case CallOrganizationReadiness(up) => UpReply(up)
    case CallAttest(_, organizationPhase, _, _, topologyRequest, _, worldPhase) =>
      AttestationReply(Attestation(cfg, r, organizationPhase, topologyRequest, worldPhase))
    case CallActivate(_, attestation) => ActivationReply(Activation(r, attestation))
    case CallFirstTick(activation) => TickReply(Tick(cfg, r, activation.digest))
    case CallWaitTerminal(tick, running) => TerminalReply(Terminated(r, tick, running.digest))
    case CallPause(_, service, terminal) => PauseReply(Pause(r, service.body.service, terminal))
    case CallExportWorld(_, pause) => WorldEvidenceReply(WorldExport(r, pause))
    case CallExportOrganization(deployment, _, _, runId) =>
      ExportReply(RawExport(deployment, [], deployment, runId, "index", FILES, []))
    case CallClean(_, op, owned, ownership, runId, targets) =>
      CleanupReply(Released(op, owned, ownership, runId, targets))
  }

  ghost predicate Honest(cfg: Configuration, r: Request, w: Manner, settled: PortCall -> Reply) {
    && (w.attachment.Some? && w.attachment.value.result.Some? ==> w.attachment.value.result.value == ATTACHMENT)
    && forall c :: settled(c) == Answer(cfg, r, w, c)
  }

  // ---- faithful payloads are linked -----------------------------------------------------------------

  lemma {:induction false} NextLinks(cfg: Configuration, r: Request, settled: PortCall -> Reply, ps: seq<Payload>)
    requires Linked(cfg, r, ps) && 1 <= |ps| <= 15 && NextFact(cfg, r, settled, ps).Some?
    ensures Kinds(ps + [Payload(r.runId, NextFact(cfg, r, settled, ps).value)])
    ensures Linked(cfg, r, ps + [Payload(r.runId, NextFact(cfg, r, settled, ps).value)])
  {
    hide Link, Accept, CallFor, MayCall, MayClean, SettledCleanup, OwnershipOf, Kinds;
    var p := Payload(r.runId, NextFact(cfg, r, settled, ps).value);
    assert Kinds(ps);
    if |ps| == 10 {
      RunningLinks(cfg, r, ps);
    } else if |ps| == 15 {
      CleanedNextFact(cfg, r, settled, ps);
      OwnershipIsThere(r, ps);
      SettledFits(r, OwnershipOf(ps).value, settled, 5);
      CleanedLinks(cfg, r, ps, SettledCleanup(r, OwnershipOf(ps).value, settled, 5).value);
    } else {
      NextFactByCall(cfg, r, settled, ps);
      AcceptedLinks(cfg, r, ps, settled(CallFor(cfg, r, ps, |ps|)));
    }
    KindsLast(ps, p);
    LinkedGrows(cfg, r, ps, p);
  }

  lemma {:induction false} KindsLast(ps: seq<Payload>, p: Payload)
    requires Kinds(ps + [p])
    ensures KindAt(|ps|, p.fact)
  {
    assert (ps + [p])[|ps|] == p;
  }

  lemma {:induction false} RunningLinks(cfg: Configuration, r: Request, ps: seq<Payload>)
    requires Kinds(ps) && |ps| == 10 && TickInRange(cfg)
    ensures
      var p := Payload(r.runId, RunningNext(r, ps));
      Kinds(ps + [p]) && Link(cfg, r, ps + [p], 10)
  {
    var p := Payload(r.runId, RunningNext(r, ps));
    var qs := ps + [p];
    assert qs[10] == p && qs[8] == ps[8] && qs[9] == ps[9];
    KindsGrow(ps, p);
  }

  lemma {:induction false} OwnershipIsThere(r: Request, ps: seq<Payload>)
    requires Kinds(ps) && |ps| > 14 && MayClean(r, ps)
    ensures OwnershipOf(ps).Some? && ps[5].fact.up.attachment.Some?
  {
  }

  lemma {:induction false} SettledFits(r: Request, o: Ownership, settled: PortCall -> Reply, k: nat)
    requires k <= 5 && SettledCleanup(r, o, settled, k).Some?
    ensures OperationsFit(r, o, SettledCleanup(r, o, settled, k).value)
  {
    hide OperationFits, CleanCall;
    if k > 0 {
      SettledFits(r, o, settled, k - 1);
      var xs := SettledCleanup(r, o, settled, k).value;
      assert xs == SettledCleanup(r, o, settled, k - 1).value + [xs[k - 1]];
      assert OperationFits(r, o, k - 1, xs[k - 1]);
    }
  }

  lemma {:induction false} FaithfulIsLinked(cfg: Configuration, r: Request, settled: PortCall -> Reply,
                                            ps: seq<Payload>, n: nat)
    requires Faithful(cfg, r, settled, ps) && 1 <= n <= |ps| && n <= 16
    ensures Linked(cfg, r, ps[..n]) && Kinds(ps[..n])
  {
    hide NextFact, Link;
    if n == 1 {
      FirstLinks(cfg, r);
      assert ps[..1] == [First(r)];
    } else {
      FaithfulIsLinked(cfg, r, settled, ps, n - 1);
      assert Some(ps[n - 1]) == Committed(r, NextFact(cfg, r, settled, ps[..n - 1]));
      NextLinks(cfg, r, settled, ps[..n - 1]);
      assert ps[..n] == ps[..n - 1] + [ps[n - 1]];
    }
  }

  lemma {:induction false} FirstLinks(cfg: Configuration, r: Request)
    ensures Linked(cfg, r, [First(r)])
  {
    var ps := [First(r)];
    assert Kinds(ps);
    assert Link(cfg, r, ps, 0);
  }

  // ---- only a runnable configuration can complete -----------------------------------------------------

  /** Exactly the expectations that a world can report are reported in the form that is asked for. */
  lemma {:induction false} ReportableExactly(cfg: Configuration, r: Request)
    ensures ReadinessReportable(cfg.readiness, r) <==> ReadinessFits(cfg, r, Reported(cfg.readiness))
    ensures CapabilitiesMet(r, cfg.readiness) <==> CapabilitiesMet(r, Reported(cfg.readiness))
  {
    hide Nameable, SortByKey, Strict, Less;
    var e := cfg.readiness;
    SortIsStrict(e.manifests);
    SortElements(e.manifests, Itself);
    assert DistinctKeys(e.manifests, Itself) <==>
      forall i, j :: 0 <= i < j < |e.manifests| ==> e.manifests[i] != e.manifests[j];
  }

  /** An up receipt that fits names engines and a release that the expectation can name. */
  lemma {:induction false} FittingUpIsReportable(cfg: Configuration, r: Request, x: UpReceipt)
    requires UpFits(cfg, r, x, false)
    ensures OrganizationReportable(cfg.organization)
  {
    hide Nameable, ReleaseText;
    var e := cfg.organization.engines;
    assert x.engines[0] in multiset(x.engines);
    forall k | k in e ensures Nameable(k) && Nameable(e[k]) {
      assert (k, e[k]) in e.Items;
      assert (k, e[k]) in multiset(x.engines);
      var i :| 0 <= i < |x.engines| && x.engines[i] == (k, e[k]);
    }
  }

  /** Whatever its ports answered, a run that got past cleanup had a runnable configuration. */
  lemma {:induction false} CleanedWasRunnable(cfg: Configuration, r: Request, ps: seq<Payload>)
    requires Linked(cfg, r, ps) && |ps| > 15
    ensures Runnable(cfg, r)
  {
    hide Linked, ReadinessFits, ReadinessReportable, CapabilitiesMet, UpFits, OrganizationReportable,
      EvidenceCorrelates,
         OwnershipChecks, DistinctHandles, TickInRange, Reported;
    PreparedCommitted(cfg, r, ps);
    ReadinessIsExpected(cfg, r, ps);
    ReportableExactly(cfg, r);
    UpCommitted(cfg, r, ps);
    FittingUpIsReportable(cfg, r, ps[5].fact.up);
    TopologyCommitted(cfg, r, ps);
    RunningCommitted(cfg, r, ps);
    CleanupCommitted(cfg, r, ps);
    EvidenceCorrelatesExactly(cfg, r, ps);
    OwnershipDerivesExactly(cfg, r, ps);
  }

  /** No schedule of answers, crashes and resumes completes a run that is not runnable. */
  lemma {:induction false} OnlyRunnableCompletes(run: ComposedRun)
    requires run.Inv() && run.durable.body.currentPhase == Phase.Completed
    ensures Runnable(run.cfg, run.request)
  {
    hide Valid, Disciplined, Chained, Faithful, Payloads, Kinds, AllAllowed, Linked, Runnable;
    EntriesOfValid(run.gate, run.durable);
    ChainedIsLinked(run.cfg, run.durable.body);
    CleanedWasRunnable(run.cfg, run.request, run.History());
  }

  lemma {:induction false} ReadinessIsExpected(cfg: Configuration, r: Request, ps: seq<Payload>)
    requires Linked(cfg, r, ps) && |ps| > 4
    ensures ps[4].fact.WorldReadyFact? && ReadinessFits(cfg, r, Reported(cfg.readiness))
    ensures CapabilitiesMet(r, ps[4].fact.readiness) <==> CapabilitiesMet(r, Reported(cfg.readiness))
  {
    hide Link, Nameable, Strict;
    ReadinessCommitted(cfg, r, ps);
    assert KindAt(4, ps[4].fact);
  }

  // ---- and every runnable one does -----------------------------------------------------------------------

  /** What the answers before cleanup are accepted on the strength of. */
  ghost predicate Answerable(cfg: Configuration, r: Request, w: Manner) {
    && TickInRange(cfg) && ReadinessFits(cfg, r, Reported(cfg.readiness)) && CapabilitiesMet(r, Reported(cfg.readiness))
    && UpFits(cfg, r, Up(cfg, r, w.attachment), true)
  }

  lemma {:induction false} StartableIsAnswerable(cfg: Configuration, r: Request, w: Manner)
    requires Startable(cfg, r)
    ensures Answerable(cfg, r, w)
  {
    hide Nameable, ReleaseText, ReadinessReportable, ReadinessFits, CapabilitiesMet;
    ReportableExactly(cfg, r);
    var e, x := cfg.organization, Up(cfg, r, w.attachment);
    var k :| k in e.engines;
    assert (k, e.engines[k]) in e.engines.Items;
    forall i | 0 <= i < |x.engines| ensures Nameable(x.engines[i].0) && Nameable(x.engines[i].1) {
      assert x.engines[i] in multiset(x.engines);
      assert x.engines[i] in e.engines.Items;
    }
  }

  lemma {:induction false} ReadyUpFits(cfg: Configuration, r: Request, x: UpReceipt)
    requires UpFits(cfg, r, x, true)
    ensures UpFits(cfg, r, x, false) && x.ready.Some?
  {
    hide Nameable, ReleaseText;
  }

  lemma {:induction false} EarlyAnswersAccepted(cfg: Configuration, r: Request, w: Manner,
                                                settled: PortCall -> Reply, ps: seq<Payload>)
    requires Answerable(cfg, r, w) && Honest(cfg, r, w, settled) && Linked(cfg, r, ps) && 1 <= |ps| <= 5
    ensures NextFact(cfg, r, settled, ps) == Some(
      match |ps|
      case 1 => PreparedFact(Preparation(cfg, r, w.detail), Preparation(cfg, r, w.detail).digest)
      case 2 => WorldCreatedFact(Resource(r, ps[1].fact.preparation.digest))
      case 3 => WorldStartedFact(Service(r, ps[2].fact.resource.body.resource))
      case 4 => ReadyPayload(cfg, r).fact
      case _ => OrganizationStartedFact(Up(cfg, r, w.attachment), UpDigest(Up(cfg, r, w.attachment))))
  {
    hide Link, ReadinessFits, CapabilitiesMet, Reported, UpFits, Up;
    NextFactByCall(cfg, r, settled, ps);
    ReadyUpFits(cfg, r, Up(cfg, r, w.attachment));
    assert settled(CallFor(cfg, r, ps, |ps|)) == Answer(cfg, r, w, CallFor(cfg, r, ps, |ps|));
  }

  lemma {:induction false} ReadyAnswerAccepted(cfg: Configuration, r: Request, w: Manner,
                                               settled: PortCall -> Reply, ps: seq<Payload>)
    requires Answerable(cfg, r, w) && Honest(cfg, r, w, settled) && Linked(cfg, r, ps) && |ps| == 6
    requires ps[5].fact.OrganizationStartedFact? && ps[5].fact.up == Up(cfg, r, w.attachment)
    ensures NextFact(cfg, r, settled, ps).Some?
  {
    hide Link, ReadinessFits, CapabilitiesMet, Reported, TargetDigest, PayloadDigest, UpFits, Up;
    NextFactByCall(cfg, r, settled, ps);
    ReadyUpFits(cfg, r, Up(cfg, r, w.attachment));
    assert settled(CallFor(cfg, r, ps, 6)) == Answer(cfg, r, w, CallFor(cfg, r, ps, 6));
  }

  lemma {:induction false} MiddleAnswersAccepted(cfg: Configuration, r: Request, w: Manner,
                                                 settled: PortCall -> Reply, ps: seq<Payload>)
    requires Answerable(cfg, r, w) && Honest(cfg, r, w, settled) && Linked(cfg, r, ps) && 7 <= |ps| <= 9
    requires ps[4] == ReadyPayload(cfg, r)
    ensures NextFact(cfg, r, settled, ps).Some?
  {
    hide Link, ReadinessFits, CapabilitiesMet, Reported, TargetDigest, PayloadDigest, UpFits, Up;
    NextFactByCall(cfg, r, settled, ps);
    ReadinessIsExpected(cfg, r, ps);
    assert settled(CallFor(cfg, r, ps, |ps|)) == Answer(cfg, r, w, CallFor(cfg, r, ps, |ps|));
  }

  lemma {:induction false} LateAnswersAccepted(cfg: Configuration, r: Request, w: Manner,
                                               settled: PortCall -> Reply, ps: seq<Payload>)
    requires Answerable(cfg, r, w) && Honest(cfg, r, w, settled) && Linked(cfg, r, ps) && 10 <= |ps| <= 14
    ensures NextFact(cfg, r, settled, ps).Some?
  {
    hide Link, ReadinessFits, CapabilitiesMet, Reported, TargetDigest, PayloadDigest, UpFits, Up, InventoryOk,
         OrganizationEvidence.Build, OrganizationEvidence.Parses;
    if |ps| > 10 {
      NextFactByCall(cfg, r, settled, ps);
      assert settled(CallFor(cfg, r, ps, |ps|)) == Answer(cfg, r, w, CallFor(cfg, r, ps, |ps|));
    }
    if |ps| > 12 {
      PauseCommitted(cfg, r, ps);
      InventoryIsOk();
    }
    if |ps| == 14 { FilesParse("index"); }
  }

  lemma {:induction false} InventoryIsOk()
    ensures InventoryOk(INVENTORY)
  {
    assert INVENTORY[0].authority == Actions && INVENTORY[1].authority == Checkpoints;
    assert INVENTORY[2].authority == Projections;
    assert Less([97], [98]) && Less([98], [99]);
  }

  lemma {:induction false} FilesParse(index: Name)
    ensures
      var built := OrganizationEvidence.Build(OrganizationEvidence.AuthorityFor, index, FILES, []);
      built.Some? && OrganizationEvidence.Parses(OrganizationEvidence.AuthorityFor, built.value)
  {
    hide Less, SortByKey, OrganizationEvidence.AuthorityFor, OrganizationEvidence.EntryFor, OrganizationEvidence.Parses;
    FilesAreNamed();
    var naming := OrganizationEvidence.AuthorityFor;
    var r := OrganizationEvidence.Build(naming, index, FILES, []).value;
    OrganizationEvidence.BuiltReceiptParses(naming, index, FILES, []);
    OrganizationEvidence.FiledIsRepresented(naming, r, 0);
    OrganizationEvidence.FiledIsRepresented(naming, r, 1);
  }

  lemma {:induction false} FilesAreNamed()
    ensures OrganizationEvidence.AuthorityFor(FILES[0].path) == Some(OrganizationEvidence.Daimon)
    ensures OrganizationEvidence.AuthorityFor(FILES[1].path) == Some(OrganizationEvidence.Moltnet)
    ensures Less(FILES[0].path, FILES[1].path)
  {
    var raw, d, m := OrganizationEvidence.RAW,
      OrganizationEvidence.DAIMON_DIRECTORY, OrganizationEvidence.MOLTNET_DIRECTORY;
    var x, y := d + [97], m + [97];
    assert FILES[0].path == raw + x && FILES[1].path == raw + y;
    assert x[0] == 100 && y[0] == 109;
    assert Less(x, y);
    LessBehind(raw, x, y);
    assert (raw + x)[4] == 100 && OrganizationEvidence.MOLTNET[4] == 109;
  }

  // ---- cleanup -----------------------------------------------------------------------------------------------

  ghost predicate Ascending(s: seq<Contracts.Handle>) { SortedByKey(s, Itself) }

  lemma {:induction false} AscendingIsFixed(s: seq<Contracts.Handle>)
    requires Ascending(s)
    ensures SortedUniqueOf(s) == s
  {
    hide Unique, SortByKey;
    SortedUniqueElements(s);
    UniqueElements(s);
    assert DistinctKeys(Unique(s), Itself);
    SortSorts(Unique(s), Itself);
    SortedUnique(SortedUniqueOf(s), s, Itself);
  }

  lemma {:induction false} SortedUniqueAscends(s: seq<Contracts.Handle>)
    ensures Ascending(SortedUniqueOf(s))
  {
    hide Unique, SortByKey;
    UniqueElements(s);
    assert DistinctKeys(Unique(s), Itself);
    SortSorts(Unique(s), Itself);
  }

  lemma {:induction false} WithoutAscends(s: seq<Contracts.Handle>, gone: seq<Contracts.Handle>)
    requires Ascending(s)
    ensures Ascending(Without(s, gone))
    ensures forall h :: h in Without(s, gone) ==> h in s
  {
    if s != [] {
      WithoutAscends(s[1..], gone);
      var rest := Without(s[1..], gone);
      forall j | 0 <= j < |rest| ensures Less(s[0], rest[j]) {
        assert rest[j] in rest;
        var k :| 0 <= k < |s[1..]| && s[1..][k] == rest[j];
        assert Less(Itself(s[0]), Itself(s[k + 1]));
      }
    }
  }

  lemma {:induction false} RemainingAscends(o: Ownership, k: nat)
    requires k <= 5
    ensures Ascending(RemainingBefore(o, k))
  {
    hide Releasable, Ascending, SortedUniqueOf;
    if k == 0 {
      SortedUniqueAscends(Handles(o));
    } else {
      RemainingAscends(o, k - 1);
      WithoutAscends(RemainingBefore(o, k - 1), Releasable(o, OPERATIONS[k - 1]));
    }
  }

  lemma {:induction false} TargetsAscend(o: Ownership, op: CleanupOperation)
    ensures Ascending(Targets(o, op)) && Ascending(Releasable(o, op))
  {
    hide SortedUniqueOf;
    if op == CleanupTargetResources {
      SortedUniqueAscends([o.dataNetwork, o.evidenceVolume, o.worldResource, o.worldService]);
    }
  }

  lemma {:induction false} CleanAnswerFits(cfg: Configuration, r: Request, w: Manner, o: Ownership, k: nat)
    requires k < 5
    ensures
      var reply := Answer(cfg, r, w, CleanCall(r, RequestDigest(r), o, k));
      reply.CleanupReply? && OperationFits(r, o, k, reply.cleanup)
  {
    hide RemainingBefore, Targets, SortedUniqueOf, Ascending, Without;
    var op, remaining := OPERATIONS[k], RemainingBefore(o, k);
    RemainingAscends(o, k);
    TargetsAscend(o, op);
    WithoutAscends(remaining, Releasable(o, op));
    AscendingIsFixed(Targets(o, op));
    AscendingIsFixed(Releasable(o, op));
    AscendingIsFixed(Without(remaining, Releasable(o, op)));
  }

  lemma {:induction false} CleanAnswersFit(cfg: Configuration, r: Request, w: Manner,
                                           settled: PortCall -> Reply, o: Ownership, k: nat)
    requires Honest(cfg, r, w, settled) && k <= 5
    ensures SettledCleanup(r, o, settled, k).Some?
  {
    hide OperationFits, CleanCall, Answer;
    if k > 0 {
      CleanAnswersFit(cfg, r, w, settled, o, k - 1);
      CleanAnswerFits(cfg, r, w, o, k - 1);
    }
  }

  // ---- the run -------------------------------------------------------------------------------------------------

  /** Under ports that answer what they are asked for, a startable configuration meets no refusal
      up to both exports, and at cleanup meets none exactly if it is runnable and the up receipt
      carries the receipt of an attachment that succeeded. */
  lemma {:induction false} HonestPortsNeverStall(cfg: Configuration, r: Request, w: Manner,
                                                 settled: PortCall -> Reply, ps: seq<Payload>)
    requires Startable(cfg, r) && Honest(cfg, r, w, settled) && Faithful(cfg, r, settled, ps) && 1 <= |ps| <= 15
    ensures Kinds(ps)
    ensures NextFact(cfg, r, settled, ps).Some? <==> |ps| <= 14 || Cleanable(cfg, w)
  {
    hide Faithful, Linked, NextFact, Startable, Runnable, Answerable, Honest, Kinds;
    StartableIsAnswerable(cfg, r, w);
    FaithfulIsLinked(cfg, r, settled, ps, |ps|);
    assert ps[..|ps|] == ps;
    if |ps| <= 5 {
      EarlyAnswersAccepted(cfg, r, w, settled, ps);
    } else {
      StartedAsAnswered(cfg, r, w, settled, ps);
      if |ps| == 6 {
        ReadyAnswerAccepted(cfg, r, w, settled, ps);
      } else if |ps| <= 9 {
        MiddleAnswersAccepted(cfg, r, w, settled, ps);
      } else if |ps| <= 14 {
        LateAnswersAccepted(cfg, r, w, settled, ps);
      } else {
        MayCleanUp(cfg, r, w, settled, ps);
        if Attached(w.attachment) { CleanAnswersFit(cfg, r, w, settled, OwnershipOf(ps).value, 5); }
        CleanedNextFact(cfg, r, settled, ps);
      }
    }
  }

  /** The startup facts of a run with such ports, handles and all. */
  lemma {:induction false} StartedAsAnswered(cfg: Configuration, r: Request, w: Manner,
                                             settled: PortCall -> Reply, ps: seq<Payload>)
    requires Startable(cfg, r) && Honest(cfg, r, w, settled) && Faithful(cfg, r, settled, ps) && 6 <= |ps| <= 16
    ensures
      && ps[1].fact.PreparedFact? && ps[1].fact.preparation == Preparation(cfg, r, w.detail)
      && ps[2].fact.WorldCreatedFact? && ps[2].fact.resource.body.resource == RESOURCE
      && ps[3].fact.WorldStartedFact? && ps[3].fact.service.body.service == SERVICE
      && ps[4] == ReadyPayload(cfg, r)
      && ps[5].fact.OrganizationStartedFact? && ps[5].fact.up == Up(cfg, r, w.attachment)
  {
    hide Faithful, Linked, NextFact, Startable, Honest, Kinds, Preparation, Up;
    StartedAt(cfg, r, w, settled, ps, 1);
    StartedAt(cfg, r, w, settled, ps, 2);
    StartedAt(cfg, r, w, settled, ps, 3);
    StartedAt(cfg, r, w, settled, ps, 4);
    StartedAt(cfg, r, w, settled, ps, 5);
  }

  /** What a faithful run commits at index i is what follows the payloads before it. */
  lemma {:induction false} FactAt(cfg: Configuration, r: Request, settled: PortCall -> Reply, ps: seq<Payload>, i: nat)
    requires Faithful(cfg, r, settled, ps) && 1 <= i < |ps| && i < 16
    ensures Kinds(ps[..i]) && NextFact(cfg, r, settled, ps[..i]) == Some(ps[i].fact) && ps[i].runId == r.runId
  {
    hide NextFact, Kinds;
  }

  lemma {:induction false} StartedAt(cfg: Configuration, r: Request, w: Manner,
                                     settled: PortCall -> Reply, ps: seq<Payload>, i: nat)
    requires Startable(cfg, r) && Honest(cfg, r, w, settled) && Faithful(cfg, r, settled, ps)
    requires 6 <= |ps| <= 16 && i in {1, 2, 3, 4, 5}
    ensures Kinds(ps[..i]) && i == 1 ==>
      ps[1].fact == PreparedFact(Preparation(cfg, r, w.detail), Preparation(cfg, r, w.detail).digest)
    ensures Kinds(ps[..i]) && i == 2 ==> ps[2].fact == WorldCreatedFact(Resource(r, ps[..2][1].fact.preparation.digest))
    ensures Kinds(ps[..i]) && i == 3 ==>
      ps[3].fact == WorldStartedFact(Service(r, ps[..3][2].fact.resource.body.resource))
    ensures i == 4 ==> ps[4] == ReadyPayload(cfg, r)
    ensures Kinds(ps[..i]) && i == 5 ==>
      ps[5].fact == OrganizationStartedFact(Up(cfg, r, w.attachment), UpDigest(Up(cfg, r, w.attachment)))
    ensures Kinds(ps[..i])
  {
    hide Faithful, Linked, NextFact, Startable, Answerable, Honest, Preparation, Up;
    StartableIsAnswerable(cfg, r, w);
    FaithfulIsLinked(cfg, r, settled, ps, i);
    FactAt(cfg, r, settled, ps, i);
    EarlyAnswersAccepted(cfg, r, w, settled, ps[..i]);
  }

  lemma {:induction false} MayCleanUp(cfg: Configuration, r: Request, w: Manner,
                                      settled: PortCall -> Reply, ps: seq<Payload>)
    requires Startable(cfg, r) && Honest(cfg, r, w, settled) && Faithful(cfg, r, settled, ps) && |ps| == 15
    ensures Kinds(ps) && (Attached(w.attachment) ==> OwnershipOf(ps).Some?)
    ensures MayClean(r, ps) <==> Cleanable(cfg, w)
  {
    hide Faithful, Linked, NextFact, Startable, Kinds, TargetDigest, EvidenceCorrelates, OwnershipChecks, Answer;
    FaithfulIsLinked(cfg, r, settled, ps, 15);
    assert ps[..15] == ps;
    StartedAsAnswered(cfg, r, w, settled, ps);
    EvidenceCorrelatesExactly(cfg, r, ps);
    OwnershipDerivesExactly(cfg, r, ps);
  }

  /** A run of n phases under such ports. */
  lemma {:induction false} HonestRun(cfg: Configuration, r: Request, w: Manner,
                                     settled: PortCall -> Reply, n: nat)
    returns (ps: seq<Payload>)
    requires Startable(cfg, r) && Honest(cfg, r, w, settled)
    requires 1 <= n <= if Cleanable(cfg, w) then 16 else 15
    ensures Faithful(cfg, r, settled, ps) && |ps| == n
  {
    hide NextFact, Startable, Honest;
    if n == 1 {
      ps := [First(r)];
      assert Kinds(ps);
    } else {
      var before := HonestRun(cfg, r, w, settled, n - 1);
      HonestPortsNeverStall(cfg, r, w, settled, before);
      FaithfulIsLinked(cfg, r, settled, before, n - 1);
      assert before[..n - 1] == before;
      NextLinks(cfg, r, settled, before);
      var p := Payload(r.runId, NextFact(cfg, r, settled, before).value);
      FaithfulGrows(cfg, r, settled, before, p);
      ps := before + [p];
    }
  }

  /** A configuration that agrees with the request but not with itself, or a target receipt that
      is not of an attachment that succeeded, goes through every phase up to both exports, and then
      the handles can never be released. */
  lemma {:induction false} MismatchStrandsCleanup(cfg: Configuration, r: Request, w: Manner,
                                                  settled: PortCall -> Reply)
    returns (ps: seq<Payload>)
    requires Startable(cfg, r) && !Cleanable(cfg, w) && Honest(cfg, r, w, settled)
    ensures Faithful(cfg, r, settled, ps) && |ps| == 15 && NextFact(cfg, r, settled, ps).None?
  {
    hide NextFact, Startable, Runnable, Honest, Faithful;
    ps := HonestRun(cfg, r, w, settled, 15);
    HonestPortsNeverStall(cfg, r, w, settled, ps);
  }

  /** So does a runnable configuration when the target receipt is of a detachment, or when it is of
      an attachment that names no result. */
  lemma {:induction false} DetachedReceiptStrandsCleanup(cfg: Configuration, r: Request, named: bool)
    returns (settled: PortCall -> Reply, ps: seq<Payload>)
    requires Runnable(cfg, r)
    ensures Faithful(cfg, r, settled, ps) && |ps| == 15 && NextFact(cfg, r, settled, ps).None?
    ensures ps[5].fact.OrganizationStartedFact? && ps[5].fact.up.attachment == Some(
      if named then Attachment(DetachOrganizationOperation, Some(ATTACHMENT)) else Attachment(AttachOrganization, None))
  {
    hide NextFact, Faithful, Startable, Answer, Linked;
    var w := Manner(
      Some(if named then Attachment(DetachOrganizationOperation, Some(ATTACHMENT))
           else Attachment(AttachOrganization, None)),
      DetailOf(cfg));
    settled := c => Answer(cfg, r, w, c);
    ps := MismatchStrandsCleanup(cfg, r, w, settled);
    StartedAsAnswered(cfg, r, w, settled, ps);
  }

  /** And when the preparation reports the expected target with other further fields than the
      expectation goes by: it is accepted, and its digest is first compared at cleanup. */
  lemma {:induction false} FurtherFieldStrandsCleanup(cfg: Configuration, r: Request, detail: Name)
    returns (settled: PortCall -> Reply, ps: seq<Payload>)
    requires Runnable(cfg, r) && detail != DetailOf(cfg)
    ensures Faithful(cfg, r, settled, ps) && |ps| == 15 && NextFact(cfg, r, settled, ps).None?
    ensures ps[1].fact.PreparedFact?
    ensures ps[1].fact.preparation.body.selected == SelectedTarget(cfg.topology.target, detail)
  {
    hide NextFact, Faithful, Startable, Answer, Linked;
    var w := Manner(ATTACHED, detail);
    settled := c => Answer(cfg, r, w, c);
    ps := MismatchStrandsCleanup(cfg, r, w, settled);
    StartedAsAnswered(cfg, r, w, settled, ps);
  }

  /** Some ports complete a run exactly when its configuration is runnable. */
  lemma {:induction false} CompletableExactly(cfg: Configuration, r: Request)
    ensures Completable(cfg, r) <==> Runnable(cfg, r)
  {
    hide Faithful, Startable, Answer, Linked;
    var w := Manner(ATTACHED, DetailOf(cfg));
    if Completable(cfg, r) {
      var settled: PortCall -> Reply, ps :| Faithful(cfg, r, settled, ps) && |ps| >= 16;
      FaithfulIsLinked(cfg, r, settled, ps, 16);
      CleanedWasRunnable(cfg, r, ps[..16]);
    }
    if Runnable(cfg, r) {
      var settled: PortCall -> Reply := c => Answer(cfg, r, w, c);
      RunnableMeansCleanable(cfg, r);
      var ps := HonestRun(cfg, r, w, settled, 16);
    }
  }

  /** From any phase, a process that nothing disturbs finishes a runnable run whose ports answer
      what they are asked for. */
  method FinishUndisturbed(run: ComposedRun, ghost w: Manner, command: Contracts.Handle) returns (outcome: Outcome)
    requires run.Inv() && run.Calm() && run.OnTime()
    requires Startable(run.cfg, run.request) && Cleanable(run.cfg, w) && Honest(run.cfg, run.request, w, run.settled)
    modifies run
    ensures run.Inv() && outcome.Finished? && run.durable.body.currentPhase == Phase.Completed
    ensures CompletedReceipt(run.gate, run.durable) == Some(outcome.receipt)
  {
    hide Startable, TickInRange, ReadinessFits, CapabilitiesMet, Honest, Faithful, NextFact, Valid, CompletedReceipt,
         Chained, Disciplined, Kinds, AllAllowed, Payloads;
    outcome := run.RunDurable(false, None, command);
    if !outcome.Finished? {
      assert outcome != Unauthorized;
      HonestPortsNeverStall(run.cfg, run.request, w, run.settled, run.History());
      assert false;
    }
  }
}
