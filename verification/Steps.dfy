/** The call each phase makes, the fact it commits, and the payloads a run commits
    when its ports answer the same call with the same receipt. */
module Steps {
  import opened Wrappers
  import opened Contracts
  import opened PhaseJournal
  import opened Receipts
  import opened Cleanup
  import opened Chain

  /** The phases reached by one port call; running is computed and cleaned takes five. */
  predicate ByOneCall(i: nat) { 1 <= i <= 9 || 11 <= i <= 14 }

  function TopologyRequest(cfg: Configuration, r: Request, ps: seq<Payload>): Digest
    requires |ps| > 6
  {
    cfg.topology.requestDigest.GetOr(
      Sealed(TopologyHintDomain, TopologyHintContent(PhaseDigest(ps, 6), RequestDigest(r), PhaseDigest(ps, 4))))
  }

  function CallFor(cfg: Configuration, r: Request, ps: seq<Payload>, i: nat): PortCall
    requires Kinds(ps) && ByOneCall(i) && i <= |ps|
  {
    var d := RequestDigest(r);
    match i
    case 1 => CallPrepare(Key(PrepareRun, d), r)
    case 2 => CallCreateResource(Key(CreateWorldResource, d), ps[1].fact.preparation)
    case 3 => CallStartWorld(Key(StartWorldPaused, d), ps[2].fact.resource)
    case 4 => CallReadiness(ps[3].fact.service)
    case 5 => CallStartOrganization(Key(StartOrganization, d), r.runId, ps[4].fact.readinessDigest)
    case 6 => CallOrganizationReadiness(ps[5].fact.up)
    case 7 => CallAttest(ps[6], PhaseDigest(ps, 6), d, r.runId, TopologyRequest(cfg, r, ps), ps[4], PhaseDigest(ps, 4))
    case 8 => CallActivate(Key(ActivateTopology, d), ps[7].fact.attestation)
    case 9 => CallFirstTick(ps[8].fact.activation)
    case 11 => CallWaitTerminal(cfg.terminalTick, ps[10].fact.running)
    case 12 => CallPause(Key(PauseWorld, d), ps[3].fact.service, ps[11].fact.terminal)
    case 13 => CallExportWorld(Key(ExportWorldEvidence, d), ps[12].fact.pause)
    case 14 => CallExportOrganization(cfg.deploymentName, Key(ExportOrganization, d), PhaseDigest(ps, 6), r.runId)
  }

  /** The check a stage makes before it calls at all. */
  predicate MayCall(r: Request, ps: seq<Payload>)
    requires Kinds(ps)
  {
    |ps| == 7 ==> CapabilitiesMet(r, ps[4].fact.readiness)
  }

  /** What a phase commits for an answer, or None if the answer is refused. */
  function Accept(cfg: Configuration, r: Request, ps: seq<Payload>, reply: Reply): Option<Fact>
    requires Kinds(ps) && ByOneCall(|ps|)
  {
    match (|ps|, reply)
    case (1, PreparationReply(x)) => if PreparationFits(cfg, r, x) then Some(PreparedFact(x, x.digest)) else None
    case (2, ResourceReply(x)) =>
      if ResourceFits(r, ps[1].fact.preparation, x) then Some(WorldCreatedFact(x)) else None
    case (3, ServiceReply(x)) => if ServiceFits(r, ps[2].fact.resource, x) then Some(WorldStartedFact(x)) else None
    case (4, ReadinessReply(x)) =>
      if ReadinessFits(cfg, r, x) then Some(WorldReadyFact(x, ReadinessDigest(x))) else None
    case (5, UpReply(x)) => if UpFits(cfg, r, x, false) then Some(OrganizationStartedFact(x, UpDigest(x))) else None
    case (6, UpReply(x)) =>
      if UpFits(cfg, r, x, true)
      then Some(OrganizationReadyFact(x.release, x.handoff, x.ready.value, UpDigest(x))) else None
    case (7, AttestationReply(x)) =>
      if AttestationFits(cfg, r, PhaseDigest(ps, 4), PhaseDigest(ps, 6), x)
      then Some(TopologyFact(x, x.digest)) else None
    case (8, ActivationReply(x)) =>
      if ActivationFits(r, ps[7].fact.attestation, x) then Some(ActivatedFact(x, x.digest)) else None
    case (9, TickReply(x)) =>
      if TickFits(r, ps[8].fact.activation, PhaseDigest(ps, 4), x) then Some(TickFact(x, x.digest)) else None
    case (11, TerminalReply(x)) =>
      if TerminalFits(cfg, r, ps[10].fact.running, x) then Some(TerminalFact(x, x.digest)) else None
    case (12, PauseReply(x)) =>
      if PauseFits(r, ps[3].fact.service, ps[11].fact.terminal, x) then Some(PausedFact(x, x.digest)) else None
    case (13, WorldEvidenceReply(x)) =>
      if WorldEvidenceFits(r, ps[3].fact.service, ps[12].fact.pause, x)
      then Some(WorldEvidenceFact(x, x.digest)) else None
    case (14, ExportReply(x)) =>
      var evidence := OrganizationEvidenceOf(cfg, r, PhaseDigest(ps, 6), x);
      if evidence.Some? then Some(OrganizationEvidenceFact(evidence.value, evidence.value.digest)) else None
    case _ => None
  }

  function RunningNext(r: Request, ps: seq<Payload>): Fact
    requires Kinds(ps) && |ps| == 10
  {
    var x := RunningOf(r, ps[8].fact.activationDigest, ps[9].fact.tickDigest);
    RunningFact(x, x.digest)
  }

  // ---- accepted facts extend the chain --------------------------------------------------------

  lemma {:induction false} KindsGrow(ps: seq<Payload>, p: Payload)
    requires Kinds(ps) && KindAt(|ps|, p.fact)
    ensures Kinds(ps + [p])
  {
  }

  lemma {:induction false} AcceptedKind(cfg: Configuration, r: Request, ps: seq<Payload>, reply: Reply)
    requires Kinds(ps) && ByOneCall(|ps|) && Accept(cfg, r, ps, reply).Some?
    ensures KindAt(|ps|, Accept(cfg, r, ps, reply).value)
  {
    hide PreparationFits, ResourceFits, ServiceFits, ReadinessFits, UpFits, AttestationFits, ActivationFits,
         TickFits, TerminalFits, PauseFits, WorldEvidenceFits, OrganizationEvidenceOf, PhaseDigest, Kinds;
  }

  lemma {:induction false} OrganizationEvidenceIsLinked(cfg: Configuration, r: Request, organizationPhase: Digest,
                                                        x: RawExport)
    requires OrganizationEvidenceOf(cfg, r, organizationPhase, x).Some?
    ensures OrganizationEvidenceLinked(cfg, r, organizationPhase,
                                       OrganizationEvidenceOf(cfg, r, organizationPhase, x).value)
  {
  }

  lemma {:induction false} AcceptedLinks(cfg: Configuration, r: Request, ps: seq<Payload>, reply: Reply)
    requires Kinds(ps) && ByOneCall(|ps|) && MayCall(r, ps) && Accept(cfg, r, ps, reply).Some?
    ensures
      var p := Payload(r.runId, Accept(cfg, r, ps, reply).value);
      Kinds(ps + [p]) && Link(cfg, r, ps + [p], |ps|)
  {
    hide PreparationFits, ResourceFits, ServiceFits, ReadinessFits, UpFits, AttestationFits, ActivationFits,
         TickFits, TerminalFits, PauseFits, WorldEvidenceFits, OrganizationEvidenceOf, OrganizationEvidenceLinked,
         CapabilitiesMet;
    AcceptedKind(cfg, r, ps, reply);
    var p := Payload(r.runId, Accept(cfg, r, ps, reply).value);
    KindsGrow(ps, p);
    assert forall k :: 0 <= k < |ps| ==> (ps + [p])[k] == ps[k];
    if |ps| == 14 { OrganizationEvidenceIsLinked(cfg, r, PhaseDigest(ps, 6), reply.exported); }
  }

  // ---- the run that its ports determine -----------------------------------------------------------

  /** The first k cleanup receipts when every operation is answered as settled. */
  function SettledCleanup(r: Request, o: Ownership, settled: PortCall -> Reply, k: nat)
    : (xs: Option<seq<Receipt<CleanupOperationBody>>>)
    requires k <= 5
    ensures xs.Some? ==> |xs.value| == k
  {
    if k == 0 then Some([])
    else
      var before := SettledCleanup(r, o, settled, k - 1);
      var reply := settled(CleanCall(r, RequestDigest(r), o, k - 1));
      if before.Some? && reply.CleanupReply? && OperationFits(r, o, k - 1, reply.cleanup)
      then Some(before.value + [reply.cleanup]) else None
  }

  predicate MayClean(r: Request, ps: seq<Payload>)
    requires Kinds(ps) && |ps| > 14
  {
    EvidenceCorrelates(r, ps) && OwnershipChecks(r, ps)
  }

  function CleanedBy(r: Request, o: Ownership, xs: seq<Receipt<CleanupOperationBody>>): Fact {
    CleanedFact(CleanupOf(r, o, xs), CleanupOf(r, o, xs).digest)
  }

  /** What the next phase commits when each call is answered as settled, or None if that
      answer, or the state it meets, is refused. */
  function NextFact(cfg: Configuration, r: Request, settled: PortCall -> Reply, ps: seq<Payload>): Option<Fact>
    requires Kinds(ps) && 1 <= |ps| <= 15
  {
    if |ps| == 10 then if TickInRange(cfg) then Some(RunningNext(r, ps)) else None
    else if |ps| == 15 then
      if !MayClean(r, ps) then None
      else match SettledCleanup(r, OwnershipOf(ps).value, settled, 5)
        case None => None
        case Some(xs) => Some(CleanedBy(r, OwnershipOf(ps).value, xs))
    else if MayCall(r, ps) then Accept(cfg, r, ps, settled(CallFor(cfg, r, ps, |ps|))) else None
  }

  lemma {:induction false} NextFactByCall(cfg: Configuration, r: Request, settled: PortCall -> Reply, ps: seq<Payload>)
    requires Kinds(ps) && ByOneCall(|ps|)
    ensures NextFact(cfg, r, settled, ps) ==
      if MayCall(r, ps) then Accept(cfg, r, ps, settled(CallFor(cfg, r, ps, |ps|))) else None
  {
    hide Accept, MayCall, CallFor, Kinds;
  }

  /** Up to cleanup, every payload is the one the settled answers determine. */
  predicate Faithful(cfg: Configuration, r: Request, settled: PortCall -> Reply, ps: seq<Payload>) {
    && Kinds(ps) && |ps| >= 1 && ps[0] == First(r)
    && forall i :: 1 <= i < |ps| && i < 16 ==>
         Kinds(ps[..i]) && Some(ps[i]) == Committed(r, NextFact(cfg, r, settled, ps[..i]))
  }

  function Committed(r: Request, fact: Option<Fact>): Option<Payload> {
    if fact.None? then None else Some(Payload(r.runId, fact.value))
  }

  lemma {:induction false} FaithfulGrows(cfg: Configuration, r: Request, settled: PortCall -> Reply,
                                         ps: seq<Payload>, p: Payload)
    requires Faithful(cfg, r, settled, ps) && Kinds(ps + [p])
    requires |ps| <= 15 ==> Some(p) == Committed(r, NextFact(cfg, r, settled, ps))
    ensures Faithful(cfg, r, settled, ps + [p])
  {
    hide NextFact, Kinds;
    var qs := ps + [p];
    forall i | 1 <= i < |qs| && i < 16
      ensures Kinds(qs[..i]) && Some(qs[i]) == Committed(r, NextFact(cfg, r, settled, qs[..i]))
    {
      if i < |ps| {
        assert qs[..i] == ps[..i];
      } else {
        assert qs[..i] == ps;
      }
    }
  }

  lemma {:induction false} FaithfulPrefix(cfg: Configuration, r: Request, settled: PortCall -> Reply,
                                          ps: seq<Payload>, n: nat)
    requires Faithful(cfg, r, settled, ps) && 1 <= n <= |ps|
    ensures Faithful(cfg, r, settled, ps[..n])
  {
    hide NextFact, Kinds;
    var qs := ps[..n];
    assert Kinds(qs) by { KindsOfPrefix(ps, n); }
    forall i | 1 <= i < |qs| && i < 16
      ensures Kinds(qs[..i]) && Some(qs[i]) == Committed(r, NextFact(cfg, r, settled, qs[..i]))
    {
      assert qs[..i] == ps[..i];
    }
  }

  lemma {:induction false} KindsOfPrefix(ps: seq<Payload>, n: nat)
    requires Kinds(ps) && n <= |ps|
    ensures Kinds(ps[..n])
  {
  }

  /** Crash transparency, one index at a time: whatever was retried, two runs under the
      same settled answers have committed the same payload at every phase both reached. */
  lemma {:induction false} FaithfulRunsAgree(cfg: Configuration, r: Request, settled: PortCall -> Reply,
                                             a: seq<Payload>, b: seq<Payload>, n: nat)
    requires Faithful(cfg, r, settled, a) && Faithful(cfg, r, settled, b)
    requires n <= |a| && n <= |b| && n <= 16
    ensures a[..n] == b[..n]
  {
    hide NextFact, Kinds;
    if n > 1 {
      FaithfulRunsAgree(cfg, r, settled, a, b, n - 1);
      assert a[..n] == a[..n - 1] + [a[n - 1]] && b[..n] == b[..n - 1] + [b[n - 1]];
    }
  }

  /** Two completed runs under the same settled answers seal the same terminal receipt
      but for the digest of their journals, which names the times of the entries. */
  lemma {:induction false} CompletedRunsAgree(cfg: Configuration, r: Request, settled: PortCall -> Reply,
                                              a: seq<Entry>, b: seq<Entry>)
    requires |a| == 16 && |b| == 16
    requires Faithful(cfg, r, settled, Payloads(a)) && Faithful(cfg, r, settled, Payloads(b))
    ensures Payloads(a) == Payloads(b)
    ensures TerminalOf(cfg, r, a).body.(journalDigest := TerminalOf(cfg, r, b).body.journalDigest)
            == TerminalOf(cfg, r, b).body
    ensures TerminalOf(cfg, r, a) == TerminalOf(cfg, r, b) <==> a == b
  {
    hide NextFact, Kinds;
    FaithfulRunsAgree(cfg, r, settled, Payloads(a), Payloads(b), 16);
    assert Payloads(a)[..16] == Payloads(a) && Payloads(b)[..16] == Payloads(b);
  }

  // ---- which calls a run makes, and when ------------------------------------------------------------

  /** A call and how many entries the durable journal had when it was made. */
  datatype Logged = Logged(at: nat, call: PortCall)

  predicate IsCleanCall(r: Request, o: Ownership, call: PortCall) {
    exists k :: 0 <= k < 5 && call == CleanCall(r, RequestDigest(r), o, k)
  }

  /** The call belongs to the phase after the last durable one. */
  predicate Allowed(cfg: Configuration, r: Request, ps: seq<Payload>, e: Logged)
    requires Kinds(ps)
  {
    && e.at <= |ps|
    && if ByOneCall(e.at) then e.call == CallFor(cfg, r, ps, e.at)
       else
         && e.at == 15 && OwnershipOf(ps).Some? && DistinctHandles(OwnershipOf(ps).value)
         && IsCleanCall(r, OwnershipOf(ps).value, e.call)
  }

  predicate AllAllowed(cfg: Configuration, r: Request, ps: seq<Payload>, log: seq<Logged>)
    requires Kinds(ps)
  {
    forall k :: 0 <= k < |log| ==> Allowed(cfg, r, ps, log[k])
  }

  lemma {:induction false} AllowedGrows(cfg: Configuration, r: Request, ps: seq<Payload>, qs: seq<Payload>, e: Logged)
    requires Kinds(ps) && Kinds(qs) && ps <= qs && Allowed(cfg, r, ps, e)
    ensures Allowed(cfg, r, qs, e)
  {
    hide IsCleanCall, DistinctHandles;
  }

  function EffectAt(i: nat): Option<Effect> {
    match i
    case 1 => Some(PrepareRun) case 2 => Some(CreateWorldResource) case 3 => Some(StartWorldPaused)
    case 5 => Some(StartOrganization) case 8 => Some(ActivateTopology) case 12 => Some(PauseWorld)
    case 13 => Some(ExportWorldEvidence) case 14 => Some(ExportOrganization) case _ => None
  }

  lemma {:induction false} KeyOfCall(cfg: Configuration, r: Request, ps: seq<Payload>, i: nat)
    requires Kinds(ps) && ByOneCall(i) && i <= |ps|
    ensures KeyOf(CallFor(cfg, r, ps, i)) ==
      if EffectAt(i).None? then None else Some(Key(EffectAt(i).value, RequestDigest(r)))
  {
    hide Kinds, PhaseDigest, TopologyRequest;
  }

  lemma {:induction false} KeyOfCleanCall(r: Request, o: Ownership, call: PortCall) returns (k: nat)
    requires IsCleanCall(r, o, call)
    ensures k < 5 && call == CleanCall(r, RequestDigest(r), o, k)
    ensures KeyOf(call) == Some(Key(Clean(OPERATIONS[k]), RequestDigest(r)))
  {
    k :| 0 <= k < 5 && call == CleanCall(r, RequestDigest(r), o, k);
  }

  /** At most once: over any run with crashes and resumes, two calls with the same key are
      the same call, made while the same phase was the last durable one. */
  lemma {:induction false} KeyDeterminesCall(cfg: Configuration, r: Request, ps: seq<Payload>, a: Logged, b: Logged)
    requires Kinds(ps) && Allowed(cfg, r, ps, a) && Allowed(cfg, r, ps, b)
    requires KeyOf(a.call).Some? && KeyOf(a.call) == KeyOf(b.call)
    ensures a == b
  {
    hide Kinds, CallFor, CleanCall, OwnershipOf, KeyOf, IsCleanCall;
    if ByOneCall(a.at) { KeyOfCall(cfg, r, ps, a.at); }
    if ByOneCall(b.at) { KeyOfCall(cfg, r, ps, b.at); }
    if !ByOneCall(a.at) {
      var i := KeyOfCleanCall(r, OwnershipOf(ps).value, a.call);
      if !ByOneCall(b.at) {
        var j := KeyOfCleanCall(r, OwnershipOf(ps).value, b.call);
      }
    } else if !ByOneCall(b.at) {
      var j := KeyOfCleanCall(r, OwnershipOf(ps).value, b.call);
    }
  }

  /** No cleanup call is made before both evidence exports are durable. */
  lemma {:induction false} CleanupFollowsExports(cfg: Configuration, r: Request, ps: seq<Payload>, e: Logged)
    requires Linked(cfg, r, ps) && Allowed(cfg, r, ps, e) && e.call.CallClean?
    ensures e.at == 15 && |ps| >= 15
    ensures ps[13].fact.WorldEvidenceFact? && ps[14].fact.OrganizationEvidenceFact?
  {
    hide Link, OwnershipOf, PhaseDigest, IsCleanCall;
    assert |ps| >= 15 ==> KindAt(13, ps[13].fact) && KindAt(14, ps[14].fact);
  }

  // ---- what a call hands over ----------------------------------------------------------------------

  /** The call hands a port nothing that was not verified for this run before. */
  predicate HandsOverVerified(cfg: Configuration, r: Request, call: PortCall) {
    match call
    case CallPrepare(_, request) => request == r
    case CallCreateResource(_, x) => PreparationFits(cfg, r, x)
    case CallStartWorld(_, x) =>
      ResourceSealed(x) && x.body.runId == r.runId && x.body.artifact == r.artifactManifest && x.body.bundle == r.bundle
    case CallReadiness(x) => ServiceSealed(x) && x.body.runId == r.runId
    case CallStartOrganization(_, id, digest) =>
      && id == r.runId && digest.Sealed? && digest.content.ReadinessContent?
      && digest == ReadinessDigest(digest.content.readiness) && ReadinessFits(cfg, r, digest.content.readiness)
    case CallOrganizationReadiness(x) => UpFits(cfg, r, x, false)
    case CallAttest(organization, organizationDigest, requestDigest, id, topology, world, worldDigest) =>
      && organizationDigest == PayloadDigest(OrganizationReady, organization)
      && worldDigest == PayloadDigest(WorldReady, world) && requestDigest == RequestDigest(r) && id == r.runId
      && (cfg.topology.requestDigest.Some? ==> topology == cfg.topology.requestDigest.value)
    case CallActivate(_, x) =>
      AttestationSealed(x) && x.body.runId == r.runId && x.body.topology.body.target == cfg.topology.target
    case CallFirstTick(x) => ActivationSealed(x) && x.body.runId == r.runId
    case CallWaitTerminal(tick, x) => tick == cfg.terminalTick && x.body.runId == r.runId
    case CallPause(_, service, terminal) =>
      && ServiceSealed(service) && service.body.runId == r.runId && TerminalSealed(terminal)
      && terminal.body.terminalTick == cfg.terminalTick && terminal.body.reason == ReasonCompleted
    case CallExportWorld(_, x) => PauseSealed(x) && x.body.runId == r.runId && x.body.finalTick == cfg.terminalTick
    case CallExportOrganization(deployment, _, _, id) => deployment == cfg.deploymentName && id == r.runId
    case CallClean(_, _, _, _, id, _) => id == r.runId
  }

  lemma {:induction false} CallsHandOverVerified(cfg: Configuration, r: Request, ps: seq<Payload>, e: Logged)
    requires Linked(cfg, r, ps) && Allowed(cfg, r, ps, e)
    ensures HandsOverVerified(cfg, r, e.call)
  {
    hide Linked, Link, Kinds, PreparationFits, UpFits, PhaseDigest, OwnershipOf, ServiceSealed, ResourceSealed,
         AttestationSealed, ActivationSealed, TerminalSealed, PauseSealed, KeyOf, Key;
    LinkedKinds(cfg, r, ps);
    if !ByOneCall(e.at) {
      var k := KeyOfCleanCall(r, OwnershipOf(ps).value, e.call);
    } else {
      OneCallHandsOver(cfg, r, ps, e.at);
    }
  }

  lemma {:induction false} OneCallHandsOver(cfg: Configuration, r: Request, ps: seq<Payload>, i: nat)
    requires Linked(cfg, r, ps) && Kinds(ps) && ByOneCall(i) && i <= |ps|
    ensures HandsOverVerified(cfg, r, CallFor(cfg, r, ps, i))
  {
    hide Linked, Link, Kinds, PreparationFits, UpFits, ServiceSealed, ResourceSealed, ReadinessFits,
         AttestationSealed, ActivationSealed, TerminalSealed, PauseSealed, Key;
    match i {
      case 2 => PreparedCommitted(cfg, r, ps);
      case 3 => ResourceCommitted(cfg, r, ps);
      case 4 => ServiceCommitted(cfg, r, ps);
      case 5 => ReadinessCommitted(cfg, r, ps);
      case 6 => UpCommitted(cfg, r, ps);
      case 8 => TopologyCommitted(cfg, r, ps);
      case 9 => ActivationCommitted(cfg, r, ps);
      case 11 => RunningCommitted(cfg, r, ps);
      case 12 =>
        ServiceCommitted(cfg, r, ps);
        TerminalCommitted(cfg, r, ps);
      case 13 =>
        TerminalCommitted(cfg, r, ps);
        PauseCommitted(cfg, r, ps);
      case _ =>
    }
  }
}
