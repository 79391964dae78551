/** An accepted journal written out: every digest, identity, sequence and state in it follows from its
    request, payloads and requests, and the parser accepts exactly such journals. Each transition is
    said the same way. */
module JournalContents {
  import opened Wrappers
  import opened Contracts
  import opened PhaseJournal

  // ---- the contents ---------------------------------------------------------------------------------

  function RequestSeal(r: Request): Digest { Sealed(RequestDomain, RequestContent(r)) }

  /** The digest of the authority: under a capsule it names no execution. */
  function AuthoritySeal(b: JournalBody, recordedAt: int): Digest {
    Sealed(AuthorityDomain, match b.bootstrap
      case Some(c) =>
        AuthorityContent(Some(Sealed(CapsuleDomain, CapsuleContent(c))), None, b.nonce, recordedAt,
                         RequestSeal(b.request))
      case None =>
        AuthorityContent(
          None, if b.execution.None? then None else Some(Sealed(ExecutionDomain, ExecutionContent(b.execution.value))),
          b.nonce, recordedAt, RequestSeal(b.request)))
  }

  function EntryOf(r: Request, i: nat, fact: Fact, at: int): Entry
    requires i < 17
  {
    var p := Payload(r.runId, fact);
    Entry(PhaseAt(i), p, Sealed(PhaseDomain(PhaseAt(i)), PayloadContent(p)), at, i)
  }

  /** Seventeen phases at most, in order, of this run, under their digests, at times that never go
      back. */
  predicate EntriesWritten(gate: Gate, b: JournalBody) {
    && 1 <= |b.entries| <= 17 && b.currentPhase == PhaseAt(|b.entries| - 1)
    && (forall i :: 0 <= i < |b.entries| ==>
          && b.entries[i] == EntryOf(b.request, i, b.entries[i].payload.fact, b.entries[i].recordedAt)
          && gate(PayloadContent(b.entries[i].payload)))
    && forall i :: 0 < i < |b.entries| ==> b.entries[i - 1].recordedAt <= b.entries[i].recordedAt
  }

  function OperationOf(i: nat, command: Name, at: int, request: OperationRequest, state: OperationState,
                       receipt: Option<Name>): Operation
  {
    var d := Sealed(TargetRequestDomain, OperationRequestContent(request));
    Operation(command, Sealed(OperationDomain, OperationContent(command, d, i)), at, request, d, i, state, receipt)
  }

  function BootstrapOf(i: nat, at: int, request: OperationRequest, state: OperationState, receipt: Option<Name>)
    : BootstrapOperation
    requires i < 5
  {
    var kind := [ResolveTargetConfig, SelectTarget, PrepareContainerBundle, ProvisionCredentials,
                 PrepareComposedRun][i];
    var d := Sealed(BootstrapRequestDomain, BootstrapRequestContent(kind, request));
    BootstrapOperation(kind, Sealed(BootstrapOperationDomain, BootstrapOperationContent(kind, d, i)), at, request, d,
                       i, state, receipt)
  }

  predicate OperationsWritten(gate: Gate, b: JournalBody) {
    var os, bs := b.operations.GetOr([]), b.bootstrapOperations.GetOr([]);
    && |os| <= 1024 && |bs| <= 5
    && (forall i :: 0 <= i < |os| ==>
          && os[i] == OperationOf(i, os[i].command, os[i].recordedAt, os[i].request, os[i].state, os[i].receipt)
          && os[i].request.runId == b.request.runId && os[i].state != Ambiguous
          && (os[i].state == OperationCompleted <==> os[i].receipt.Some?)
          && gate(OperationRequestContent(os[i].request)))
    && (forall i :: 0 <= i < |bs| ==>
          && bs[i] == BootstrapOf(i, bs[i].recordedAt, bs[i].request, bs[i].state, bs[i].receipt)
          && (i < |bs| - 1 ==> bs[i].state == OperationCompleted)
          && (bs[i].state == OperationCompleted <==> bs[i].receipt.Some?)
          && gate(OperationRequestContent(bs[i].request)))
  }

  /** Complete at the last phase, recoverable under a command for the next one, active otherwise. */
  predicate StateWritten(b: JournalBody) {
    match b.interruption
    case None => b.state == if |b.entries| == 17 then Complete else Active
    case Some(x) =>
      && b.state == Recoverable && |b.entries| <= 16 && x.nextPhase == PhaseAt(|b.entries|)
      && 1 <= |x.command| <= 8192
  }

  /** What the execution, the capsule and the binding of a journal must be of each other. */
  predicate PartsWritten(b: JournalBody)
    requires |b.entries| >= 1
  {
    && (b.execution.Some? ==>
          && b.execution.value.readiness.runId == b.request.runId
          && b.execution.value.readiness.bundle == b.request.bundle
          && b.execution.value.organization.worldBinding == b.request.worldBindings)
    && (b.version == V1 ==> b.bootstrap.None? && b.binding.None? && b.bootstrapOperations.None?)
    && (b.version == V2 ==> b.bootstrap.Some? && b.bootstrap.value.runId == b.request.runId)
    && (b.version == V2 ==> (b.binding.Some? <==> b.execution.Some?))
    && (b.binding.Some? ==> b.bootstrap.Some? && BindingWritten(b, b.bootstrap.value, b.binding.value))
  }

  predicate BindingWritten(b: JournalBody, capsule: Capsule, x: Receipt<BindingBody>) {
    && b.execution.Some? && b.execution.value.resolution.Some?
    && var run, to := b.execution.value, b.execution.value.resolution.value;
       && x.body == BindingBody(
            b.authority, Sealed(CapsuleDomain, CapsuleContent(capsule)), Sealed(ExecutionDomain, ExecutionContent(run)),
            RequestSeal(b.request), b.request.runId, to.context, to.configDigest, to.helper, run.topology.target,
            run.organization.selectedTargetReceipt)
       && x.digest == Sealed(BindingDomain, BindingContent(x.body))
  }

  predicate Written(gate: Gate, j: Journal) {
    var b := j.body;
    && EntriesWritten(gate, b) && OperationsWritten(gate, b) && StateWritten(b) && PartsWritten(b)
    && b.requestDigest == RequestSeal(b.request) && b.authority == AuthoritySeal(b, b.entries[0].recordedAt)
    && gate(JournalContent(b)) && j.digest == Sealed(JournalDomain(b.version), JournalContent(b))
  }

  // ---- the parser accepts exactly that -----------------------------------------------------------------

  lemma {:induction false} PhaseOfLength(b: JournalBody)
    requires 1 <= |b.entries| <= 17
    ensures |b.entries| == Index(b.currentPhase) + 1 <==> b.currentPhase == PhaseAt(|b.entries| - 1)
  {
    PhaseAtIndex(b.currentPhase);
    IndexOfPhaseAt(|b.entries| - 1);
  }

  lemma {:induction false} EntriesExactly(gate: Gate, b: JournalBody)
    requires 1 <= |b.entries| <= 17
    ensures EntriesWritten(gate, b) <==>
      && |b.entries| == Index(b.currentPhase) + 1 && EntriesOk(b)
      && forall i :: 0 <= i < |b.entries| ==> gate(PayloadContent(b.entries[i].payload))
  {
    hide Index, PhaseAt;
    PhaseOfLength(b);
    forall i | 0 <= i < |b.entries|
      ensures EntryOk(b, i) <==>
        b.entries[i] == EntryOf(b.request, i, b.entries[i].payload.fact, b.entries[i].recordedAt)
    {
      assert b.entries[i].payload.runId == b.request.runId ==>
        b.entries[i].payload == Payload(b.request.runId, b.entries[i].payload.fact);
    }
  }

  lemma {:induction false} OperationsExactly(gate: Gate, b: JournalBody)
    ensures OperationsWritten(gate, b) <==>
      && |Operations(b)| <= MAX_OPERATIONS && |BootstrapOperations(b)| <= 16 && OperationsOk(b)
      && (forall i :: 0 <= i < |Operations(b)| ==> Operations(b)[i].state != Ambiguous)
      && (forall i :: 0 <= i < |Operations(b)| ==> gate(OperationRequestContent(Operations(b)[i].request)))
      && (forall i :: 0 <= i < |BootstrapOperations(b)| ==>
            gate(OperationRequestContent(BootstrapOperations(b)[i].request)))
  {
    var os, bs := Operations(b), BootstrapOperations(b);
    forall i | 0 <= i < |os|
      ensures OperationOk(b, i) <==>
        && os[i] == OperationOf(i, os[i].command, os[i].recordedAt, os[i].request, os[i].state, os[i].receipt)
        && os[i].request.runId == b.request.runId && (os[i].state == OperationCompleted <==> os[i].receipt.Some?)
    {}
    if |bs| > 5 { assert !BootstrapOperationOk(b, 5); }
    forall i | 0 <= i < |bs| && i < 5
      ensures BootstrapOperationOk(b, i) <==>
        && bs[i] == BootstrapOf(i, bs[i].recordedAt, bs[i].request, bs[i].state, bs[i].receipt)
        && (i < |bs| - 1 ==> bs[i].state == OperationCompleted)
        && (bs[i].state == OperationCompleted <==> bs[i].receipt.Some?)
    {}
  }

  lemma {:induction false} StateExactly(b: JournalBody)
    requires 1 <= |b.entries| <= 17 && |b.entries| == Index(b.currentPhase) + 1
    ensures StateWritten(b) <==>
      StateOk(b) && (b.interruption.Some? ==> 1 <= |b.interruption.value.command| <= MAX_COMMAND)
  {
    hide PhaseAt, Index;
    PhaseOfLength(b);
    IndexOfPhaseAt(16);
    PhaseAtIndex(Completed);
    assert Index(Completed) == 16 by { LastPhase(); }
  }

  lemma {:induction false} LastPhase()
    ensures Index(Completed) == 16
  {
  }

  lemma {:induction false} PartsExactly(b: JournalBody)
    requires |b.entries| >= 1 && b.requestDigest == RequestSeal(b.request)
    ensures b.authority == Authority(b.bootstrap, b.execution, b.nonce, b.entries[0].recordedAt, b.requestDigest)
            <==> b.authority == AuthoritySeal(b, b.entries[0].recordedAt)
    ensures PartsWritten(b) <==>
      && (b.execution.Some? ==> ExecutionFits(b, b.execution.value))
      && (b.version == V1 ==> b.bootstrap.None? && b.binding.None? && b.bootstrapOperations.None?)
      && (b.version == V2 ==> b.bootstrap.Some? && b.bootstrap.value.runId == b.request.runId)
      && Bound(b)
  {
  }

  /** The parser accepts a journal exactly if it is written so. */
  lemma {:induction false} ValidExactly(gate: Gate, j: Journal)
    ensures Valid(gate, j) <==> Written(gate, j)
  {
    hide EntriesWritten, OperationsWritten, StateWritten, PartsWritten, OperationsOk, StateOk, Bound, ClockOk, EntryOk,
         Authority, AuthoritySeal, ExecutionFits, Operations, BootstrapOperations;
    var b := j.body;
    if 1 <= |b.entries| <= 17 {
      EntriesExactly(gate, b);
      OperationsExactly(gate, b);
      if |b.entries| == Index(b.currentPhase) + 1 { StateExactly(b); }
      if b.requestDigest == RequestSeal(b.request) { PartsExactly(b); }
    } else {
      assert !EntriesWritten(gate, b) by { TooManyEntries(gate, b); }
    }
  }

  lemma {:induction false} TooManyEntries(gate: Gate, b: JournalBody)
    requires !(1 <= |b.entries| <= 17)
    ensures !EntriesWritten(gate, b)
  {
  }

  // ---- what each transition writes ------------------------------------------------------------------------

  lemma {:induction false} GenesisWrites(gate: Gate, request: Request, at: int, nonce: Name,
                                         execution: Option<Execution>)
    requires Genesis(gate, request, at, nonce, execution).Ok?
    ensures
      var b := Genesis(gate, request, at, nonce, execution).value.body;
      b == JournalBody(
        V1, request, RequestSeal(request), nonce, AuthoritySeal(b, at), Requested,
        [EntryOf(request, 0, RequestFact(RequestSeal(request)), at)], Active, None, Some([]), None, None, None,
        execution)
  {
    hide Valid;
  }

  lemma {:induction false} BootstrapGenesisWrites(gate: Gate, request: Request, capsule: Capsule, at: int, nonce: Name)
    requires BootstrapGenesis(gate, request, capsule, at, nonce).Ok?
    ensures
      var b := BootstrapGenesis(gate, request, capsule, at, nonce).value.body;
      b == JournalBody(
        V2, request, RequestSeal(request), nonce, AuthoritySeal(b, at), Requested,
        [EntryOf(request, 0, RequestFact(RequestSeal(request)), at)], Active, None, Some([]), Some(capsule), Some([]),
        None, None)
  {
    hide Valid;
  }

  lemma {:induction false} AppendWrites(gate: Gate, j: Journal, fact: Fact, at: int)
    requires Valid(gate, j) && |j.body.entries| <= 16
    requires
      Append(gate, j, PhaseAt(|j.body.entries|), Payload(j.body.request.runId, fact), at).Ok?
    ensures
      var b := j.body;
      var n := |b.entries|;
      Append(gate, j, PhaseAt(n), Payload(b.request.runId, fact), at).value.body == b.(
        currentPhase := PhaseAt(n), entries := b.entries + [EntryOf(b.request, n, fact, at)],
        interruption := None, state := if n == 16 then Complete else Active)
  {
    hide Valid, PhaseAt, Index;
    var b := j.body;
    EntriesCounted(gate, j);
    IndexOfPhaseAt(|b.entries|);
    PhaseAtIndex(Completed);
    LastPhase();
  }

  lemma {:induction false} EntriesCounted(gate: Gate, j: Journal)
    requires Valid(gate, j)
    ensures 1 <= |j.body.entries| <= 17 && |j.body.entries| == Index(j.body.currentPhase) + 1
  {
    hide GateOpen, Bound, OperationsOk, StateOk, ClockOk, EntryOk, JournalDigest;
  }

  lemma {:induction false} IntentWrites(gate: Gate, j: Journal, command: Name, request: OperationRequest, at: int)
    requires OperationIntent(gate, j, command, request, at).Ok?
    ensures
      var os := j.body.operations.GetOr([]);
      OperationIntent(gate, j, command, request, at).value.body == j.body.(
        operations := Some(os + [OperationOf(|os|, command, at, request, IntentDurable, None)]))
  {
    hide Valid;
  }

  lemma {:induction false} BootstrapIntentWrites(gate: Gate, j: Journal, kind: BootstrapKind,
                                                 request: OperationRequest, at: int)
    requires BootstrapIntent(gate, j, kind, request, at).Ok?
    ensures
      var bs := j.body.bootstrapOperations.GetOr([]);
      && |bs| < 5
      && BootstrapIntent(gate, j, kind, request, at).value.body == j.body.(
           bootstrapOperations := Some(bs + [BootstrapOf(|bs|, at, request, IntentDurable, None)]))
  {
    hide Valid;
  }
}
