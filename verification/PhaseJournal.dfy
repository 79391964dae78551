/** The phase journal: when the parser accepts one, and the transitions that
    build the next one and parse it again before they return it. */
module PhaseJournal {
  import opened Wrappers
  import opened Contracts
  import RecoveryCommand

  /** What the bounded, secret-free JSON check says of a content. */
  type Gate = Content -> bool

  datatype JournalError = Refused

  const MAX_COMMAND := RecoveryCommand.MAX_COMMAND
  const MAX_OPERATIONS := 1024
  const BOOTSTRAP_KINDS: seq<BootstrapKind> :=
    [ResolveTargetConfig, SelectTarget, PrepareContainerBundle, ProvisionCredentials, PrepareComposedRun]

  // ---- digests --------------------------------------------------------------------

  function RequestDigest(r: Request): Digest { Sealed(RequestDomain, RequestContent(r)) }

  function PayloadDigest(phase: Phase, p: Payload): Digest { Sealed(PhaseDomain(phase), PayloadContent(p)) }

  function CapsuleDigest(c: Capsule): Digest { Sealed(CapsuleDomain, CapsuleContent(c)) }

  function ExecutionDigest(x: Execution): Digest { Sealed(ExecutionDomain, ExecutionContent(x)) }

  function Authority(bootstrap: Option<Capsule>, execution: Option<Execution>, nonce: Name,
                     recordedAt: int, requestDigest: Digest): Digest
  {
    Sealed(AuthorityDomain, AuthorityContent(
      if bootstrap.None? then None else Some(CapsuleDigest(bootstrap.value)),
      if bootstrap.Some? || execution.None? then None else Some(ExecutionDigest(execution.value)),
      nonce, recordedAt, requestDigest))
  }

  function OperationRequestDigest(r: OperationRequest): Digest {
    Sealed(TargetRequestDomain, OperationRequestContent(r))
  }

  function OperationId(command: Name, requestDigest: Digest, sequence: nat): Digest {
    Sealed(OperationDomain, OperationContent(command, requestDigest, sequence))
  }

  function BootstrapRequestDigest(kind: BootstrapKind, r: OperationRequest): Digest {
    Sealed(BootstrapRequestDomain, BootstrapRequestContent(kind, r))
  }

  function BootstrapOperationId(kind: BootstrapKind, requestDigest: Digest, sequence: nat): Digest {
    Sealed(BootstrapOperationDomain, BootstrapOperationContent(kind, requestDigest, sequence))
  }

  function JournalDigest(b: JournalBody): Digest { Sealed(JournalDomain(b.version), JournalContent(b)) }

  function WithDigest(b: JournalBody): Journal { Journal(b, JournalDigest(b)) }

  // ---- what the parser checks -------------------------------------------------------

  predicate GateOpen(gate: Gate, b: JournalBody) {
    && gate(JournalContent(b))
    && (forall i :: 0 <= i < |b.entries| ==> gate(PayloadContent(b.entries[i].payload)))
    && (forall i :: 0 <= i < |Operations(b)| ==> gate(OperationRequestContent(Operations(b)[i].request)))
    && (forall i :: 0 <= i < |BootstrapOperations(b)| ==>
          gate(OperationRequestContent(BootstrapOperations(b)[i].request)))
  }

  function Operations(b: JournalBody): seq<Operation> { b.operations.GetOr([]) }

  function BootstrapOperations(b: JournalBody): seq<BootstrapOperation> { b.bootstrapOperations.GetOr([]) }

  /** The schema bounds that a transition could break. */
  predicate SchemaOk(b: JournalBody) {
    && 1 <= |b.entries| <= 17
    && |Operations(b)| <= MAX_OPERATIONS && |BootstrapOperations(b)| <= 16
    && (forall i :: 0 <= i < |Operations(b)| ==> Operations(b)[i].state != Ambiguous)
    && (b.interruption.Some? ==> 1 <= |b.interruption.value.command| <= MAX_COMMAND)
  }

  predicate ExecutionFits(b: JournalBody, x: Execution) {
    && x.readiness.runId == b.request.runId
    && x.readiness.bundle == b.request.bundle
    && x.organization.worldBinding == b.request.worldBindings
  }

  predicate Correlated(b: JournalBody)
    requires |b.entries| >= 1
  {
    && b.requestDigest == RequestDigest(b.request)
    && b.authority == Authority(b.bootstrap, b.execution, b.nonce, b.entries[0].recordedAt, b.requestDigest)
    && |b.entries| == Index(b.currentPhase) + 1
    && (b.execution.Some? ==> ExecutionFits(b, b.execution.value))
    && (b.version == V1 ==> b.bootstrap.None? && b.binding.None? && b.bootstrapOperations.None?)
    && (b.version == V2 ==> b.bootstrap.Some? && b.bootstrap.value.runId == b.request.runId)
  }

  predicate BindingSealed(r: Receipt<BindingBody>) {
    r.digest == Sealed(BindingDomain, BindingContent(r.body))
  }

  predicate Bound(b: JournalBody) {
    match b.binding
    case None => !(b.version == V2 && b.execution.Some?)
    case Some(r) =>
      && BindingSealed(r)
      && b.bootstrap.Some? && b.execution.Some? && b.execution.value.resolution.Some?
      && r.body.bootstrapAuthority == b.authority
      && r.body.bootstrapDigest == CapsuleDigest(b.bootstrap.value)
      && r.body.executionDigest == ExecutionDigest(b.execution.value)
      && r.body.requestDigest == b.requestDigest && r.body.runId == b.request.runId
      && BoundToTarget(r.body, b.execution.value)
  }

  /** The binding names the target that the execution resolved and selected. */
  predicate BoundToTarget(r: BindingBody, x: Execution)
    requires x.resolution.Some?
  {
    && r.context == x.resolution.value.context
    && r.configDigest == x.resolution.value.configDigest
    && r.helper == x.resolution.value.helper
    && r.target == x.topology.target
    && r.selectedTargetReceipt == x.organization.selectedTargetReceipt
  }

  predicate EntryOk(b: JournalBody, i: nat)
    requires i < |b.entries| <= 17
  {
    var e := b.entries[i];
    && e.phase == PhaseAt(i) && e.sequence == i
    && e.payload.runId == b.request.runId
    && e.payloadDigest == PayloadDigest(e.phase, e.payload)
  }

  predicate ClockOk(b: JournalBody) {
    forall i :: 0 < i < |b.entries| ==> b.entries[i - 1].recordedAt <= b.entries[i].recordedAt
  }

  predicate EntriesOk(b: JournalBody)
    requires |b.entries| <= 17
  {
    (forall i :: 0 <= i < |b.entries| ==> EntryOk(b, i)) && ClockOk(b)
  }

  predicate OperationOk(b: JournalBody, i: nat)
    requires i < |Operations(b)|
  {
    var o := Operations(b)[i];
    && o.sequence == i && o.request.runId == b.request.runId
    && o.requestDigest == OperationRequestDigest(o.request)
    && o.id == OperationId(o.command, o.requestDigest, o.sequence)
    && (o.state == OperationCompleted <==> o.receipt.Some?)
  }

  predicate BootstrapOperationOk(b: JournalBody, i: nat)
    requires i < |BootstrapOperations(b)|
  {
    var o := BootstrapOperations(b)[i];
    && o.sequence == i && i < 5 && o.kind == BOOTSTRAP_KINDS[i]
    && (i < |BootstrapOperations(b)| - 1 ==> o.state == OperationCompleted)
    && o.requestDigest == BootstrapRequestDigest(o.kind, o.request)
    && o.id == BootstrapOperationId(o.kind, o.requestDigest, o.sequence)
    && (o.state == OperationCompleted <==> o.receipt.Some?)
  }

  predicate OperationsOk(b: JournalBody) {
    && (forall i :: 0 <= i < |Operations(b)| ==> OperationOk(b, i))
    && (forall i :: 0 <= i < |BootstrapOperations(b)| ==> BootstrapOperationOk(b, i))
  }

  predicate StateOk(b: JournalBody) {
    && (b.state == Complete <==> b.currentPhase == Completed)
    && (b.state == Recoverable <==> b.interruption.Some?)
    && (b.interruption.Some? ==> NextPhase(b.currentPhase) == Some(b.interruption.value.nextPhase))
  }

  /** Everything the parser checks but the JSON gate and the clock. */
  predicate WellFormed(b: JournalBody) {
    && SchemaOk(b) && Correlated(b) && Bound(b)
    && (forall i :: 0 <= i < |b.entries| ==> EntryOk(b, i))
    && OperationsOk(b) && StateOk(b)
  }

  predicate Valid(gate: Gate, j: Journal) {
    GateOpen(gate, j.body) && WellFormed(j.body) && ClockOk(j.body) && j.digest == JournalDigest(j.body)
  }

  /** sealComposedPhaseJournal: add the digest and parse. */
  function SealJournal(gate: Gate, b: JournalBody): Result<Journal, JournalError> {
    if Valid(gate, WithDigest(b)) then Ok(WithDigest(b)) else Err(Refused)
  }

  /** The two checking loops, one entry or operation at a time. */
  method CheckEntries(gate: Gate, b: JournalBody) returns (ok: bool)
    requires |b.entries| <= 17
    ensures ok <==> EntriesOk(b) && forall i :: 0 <= i < |b.entries| ==> gate(PayloadContent(b.entries[i].payload))
  {
    hide EntryOk;
    var previous: Option<int> := None;
    for i := 0 to |b.entries|
      invariant previous == if i == 0 then None else Some(b.entries[i - 1].recordedAt)
      invariant forall k :: 0 <= k < i ==> gate(PayloadContent(b.entries[k].payload)) && EntryOk(b, k)
      invariant forall k :: 0 < k < i ==> b.entries[k - 1].recordedAt <= b.entries[k].recordedAt
    {
      var item := b.entries[i];
      if !gate(PayloadContent(item.payload)) || !EntryOk(b, i)
         || (previous.Some? && item.recordedAt < previous.value) {
        return false;
      }
      previous := Some(item.recordedAt);
    }
    return true;
  }

  method CheckOperations(gate: Gate, b: JournalBody) returns (ok: bool)
    ensures ok <==>
      && OperationsOk(b)
      && (forall i :: 0 <= i < |Operations(b)| ==> gate(OperationRequestContent(Operations(b)[i].request)))
      && (forall i :: 0 <= i < |BootstrapOperations(b)| ==>
            gate(OperationRequestContent(BootstrapOperations(b)[i].request)))
  {
    for i := 0 to |Operations(b)|
      invariant forall k :: 0 <= k < i ==>
        gate(OperationRequestContent(Operations(b)[k].request)) && OperationOk(b, k)
    {
      if !gate(OperationRequestContent(Operations(b)[i].request)) || !OperationOk(b, i) { return false; }
    }
    for i := 0 to |BootstrapOperations(b)|
      invariant forall k :: 0 <= k < i ==>
        gate(OperationRequestContent(BootstrapOperations(b)[k].request)) && BootstrapOperationOk(b, k)
    {
      if !gate(OperationRequestContent(BootstrapOperations(b)[i].request)) || !BootstrapOperationOk(b, i) {
        return false;
      }
    }
    return true;
  }

  // ---- genesis ------------------------------------------------------------------------

  function FirstEntry(request: Request, at: int): Entry {
    var payload := Payload(request.runId, RequestFact(RequestDigest(request)));
    Entry(Requested, payload, PayloadDigest(Requested, payload), at, 0)
  }

  function GenesisBody(request: Request, at: int, nonce: Name, execution: Option<Execution>): JournalBody {
    JournalBody(
      V1, request, RequestDigest(request), nonce,
      Authority(None, execution, nonce, at, RequestDigest(request)),
      Requested, [FirstEntry(request, at)], Active, None, Some([]), None, None, None, execution)
  }

  function Genesis(gate: Gate, request: Request, at: int, nonce: Name, execution: Option<Execution>)
    : Result<Journal, JournalError>
  {
    SealJournal(gate, GenesisBody(request, at, nonce, execution))
  }

  function BootstrapBody(request: Request, capsule: Capsule, at: int, nonce: Name): JournalBody {
    JournalBody(
      V2, request, RequestDigest(request), nonce,
      Authority(Some(capsule), None, nonce, at, RequestDigest(request)),
      Requested, [FirstEntry(request, at)], Active, None, Some([]), Some(capsule), Some([]), None, None)
  }

  function BootstrapGenesis(gate: Gate, request: Request, capsule: Capsule, at: int, nonce: Name)
    : Result<Journal, JournalError>
  {
    if capsule.runId != request.runId then Err(Refused)
    else SealJournal(gate, BootstrapBody(request, capsule, at, nonce))
  }

  // ---- transitions ----------------------------------------------------------------------

  function NewEntry(phase: Phase, payload: Payload, at: int): Entry {
    Entry(phase, payload, PayloadDigest(phase, payload), at, Index(phase))
  }

  function Appended(b: JournalBody, phase: Phase, payload: Payload, at: int): JournalBody {
    b.(currentPhase := phase, entries := b.entries + [NewEntry(phase, payload, at)],
       interruption := None, state := if phase == Completed then Complete else Active)
  }

  function Append(gate: Gate, j: Journal, phase: Phase, payload: Payload, at: int)
    : Result<Journal, JournalError>
  {
    var b := j.body;
    if !Valid(gate, j) || !gate(PayloadContent(payload)) || payload.runId != b.request.runId then Err(Refused)
    else if Index(phase) <= Index(b.currentPhase) then
      if b.entries[Index(phase)].payloadDigest != PayloadDigest(phase, payload) then Err(Refused) else Ok(j)
    else if Index(phase) != Index(b.currentPhase) + 1 || b.state == Complete then Err(Refused)
    else SealJournal(gate, Appended(b, phase, payload, at))
  }

  function Bind(gate: Gate, j: Journal, x: Execution, rawBinding: Receipt<BindingBody>)
    : Result<Journal, JournalError>
  {
    var b := j.body;
    if !Valid(gate, j) || !gate(ExecutionContent(x)) then Err(Refused)
    else if b.execution.Some? || b.currentPhase != Requested || |Operations(b)| != 0
         || |BootstrapOperations(b)| != 4
         || (exists i :: 0 <= i < 4 && BootstrapOperations(b)[i].state != OperationCompleted)
         || !ExecutionFits(b, x) then Err(Refused)
    else if b.version == V2 && !BindingSealed(rawBinding) then Err(Refused)
    else
      var binding := if b.version == V2 then Some(rawBinding) else None;
      var authority := Authority(b.bootstrap, Some(x), b.nonce, b.entries[0].recordedAt, b.requestDigest);
      if binding.Some? && !(
           && rawBinding.body.bootstrapAuthority == authority
           && rawBinding.body.executionDigest == ExecutionDigest(x)
           && rawBinding.body.requestDigest == b.requestDigest && rawBinding.body.runId == b.request.runId
           && b.bootstrap.Some? && rawBinding.body.bootstrapDigest == CapsuleDigest(b.bootstrap.value))
      then Err(Refused)
      else SealJournal(gate, b.(authority := authority,
                                binding := if binding.Some? then binding else b.binding,
                                execution := Some(x)))
  }

  function Interrupted(b: JournalBody, next: Phase, command: Contracts.Handle, signal: Signal): JournalBody {
    b.(interruption := Some(Interruption(next, command, signal)), state := Recoverable)
  }

  function MarkRecoverable(gate: Gate, j: Journal, command: Contracts.Handle, signal: Signal)
    : Result<Journal, JournalError>
  {
    var b := j.body;
    if !Valid(gate, j) then Err(Refused)
    else match NextPhase(b.currentPhase)
      case None => Err(Refused)
      case Some(next) =>
        if b.state == Complete then Err(Refused)
        else SealJournal(gate, Interrupted(b, next, command, signal))
  }

  // ---- operation records ------------------------------------------------------------------

  function Intended(b: JournalBody, command: Name, request: OperationRequest, at: int): JournalBody {
    var sequence := |Operations(b)|;
    var digest := OperationRequestDigest(request);
    b.(operations := Some(Operations(b) +
      [Operation(command, OperationId(command, digest, sequence), at, request, digest, sequence,
                 IntentDurable, None)]))
  }

  function OperationIntent(gate: Gate, j: Journal, command: Name, request: OperationRequest, at: int)
    : Result<Journal, JournalError>
  {
    SealJournal(gate, Intended(j.body, command, request, at))
  }

  /** Where the first operation with this identity is. */
  function FindOperation(os: seq<Operation>, id: Digest): (r: Option<nat>)
    ensures r.Some? ==> r.value < |os| && os[r.value].id == id
    ensures r.None? ==> forall i :: 0 <= i < |os| ==> os[i].id != id
  {
    if os == [] then None
    else if os[0].id == id then Some(0)
    else match FindOperation(os[1..], id)
      case None => None
      case Some(i) => Some(i + 1)
  }

  function OperationObservation(gate: Gate, j: Journal, id: Digest, state: OperationState, receipt: Option<Name>)
    : Result<Journal, JournalError>
  {
    var b := j.body;
    match FindOperation(Operations(b), id)
    case None => Err(Refused)
    case Some(i) =>
      var current := Operations(b)[i];
      if current.state == OperationCompleted || (state == OperationCompleted) != receipt.Some?
         || current.sequence >= |Operations(b)| then Err(Refused)
      else SealJournal(gate, b.(operations := Some(Operations(b)[current.sequence :=
             current.(state := state, receipt := if receipt.Some? then receipt else current.receipt)])))
  }

  predicate HasKind(os: seq<BootstrapOperation>, kind: BootstrapKind) {
    exists i :: 0 <= i < |os| && os[i].kind == kind
  }

  function BootstrapIntent(gate: Gate, j: Journal, kind: BootstrapKind, request: OperationRequest, at: int)
    : Result<Journal, JournalError>
  {
    var b := j.body;
    var os := BootstrapOperations(b);
    var sequence := |os|;
    if b.bootstrap.None? || sequence >= 5 || BOOTSTRAP_KINDS[sequence] != kind || HasKind(os, kind)
       || (exists i :: 0 <= i < |os| && os[i].state != OperationCompleted)
       || ((kind == PrepareComposedRun) != b.execution.Some?) then Err(Refused)
    else
      var digest := BootstrapRequestDigest(kind, request);
      SealJournal(gate, b.(bootstrapOperations := Some(os +
        [BootstrapOperation(kind, BootstrapOperationId(kind, digest, sequence), at, request, digest, sequence,
                            IntentDurable, None)])))
  }

  function FindBootstrapOperation(os: seq<BootstrapOperation>, id: Digest): (r: Option<nat>)
    ensures r.Some? ==> r.value < |os| && os[r.value].id == id
    ensures r.None? ==> forall i :: 0 <= i < |os| ==> os[i].id != id
  {
    if os == [] then None
    else if os[0].id == id then Some(0)
    else match FindBootstrapOperation(os[1..], id)
      case None => None
      case Some(i) => Some(i + 1)
  }

  function BootstrapObservation(gate: Gate, j: Journal, id: Digest, state: OperationState, receipt: Option<Name>)
    : Result<Journal, JournalError>
  {
    var b := j.body;
    var os := BootstrapOperations(b);
    match FindBootstrapOperation(os, id)
    case None => Err(Refused)
    case Some(i) =>
      if os[i].state == OperationCompleted || (state == OperationCompleted) != receipt.Some? then Err(Refused)
      else SealJournal(gate, b.(bootstrapOperations := Some(os[i :=
             os[i].(state := state, receipt := if receipt.Some? then receipt else os[i].receipt)])))
  }

  // ---- exactly when a journal can be started ---------------------------------------------------

  /** A plain journal can be started exactly for an execution that fits the request, and the JSON
      gate aside for none. */
  lemma {:induction false} GenesisSucceedsExactly(gate: Gate, request: Request, at: int, nonce: Name,
                                                  execution: Option<Execution>)
    ensures
      var b := GenesisBody(request, at, nonce, execution);
      var r := Genesis(gate, request, at, nonce, execution);
      && (r.Ok? <==>
            && (execution.Some? ==>
                  && execution.value.readiness.runId == request.runId
                  && execution.value.readiness.bundle == request.bundle
                  && execution.value.organization.worldBinding == request.worldBindings)
            && gate(PayloadContent(b.entries[0].payload)) && gate(JournalContent(b)))
      && (r.Ok? ==> r.value == WithDigest(b))
  {
    var b := GenesisBody(request, at, nonce, execution);
    assert EntryOk(b, 0);
    assert GateOpen(gate, b) <==> gate(PayloadContent(b.entries[0].payload)) && gate(JournalContent(b));
    assert WellFormed(b) <==> (execution.Some? ==> ExecutionFits(b, execution.value));
  }

  /** A bootstrap journal can be started exactly under a capsule of the same run. */
  lemma {:induction false} BootstrapGenesisSucceedsExactly(gate: Gate, request: Request, capsule: Capsule, at: int,
                                                           nonce: Name)
    ensures
      var b := BootstrapBody(request, capsule, at, nonce);
      var r := BootstrapGenesis(gate, request, capsule, at, nonce);
      && (r.Ok? <==>
            && capsule.runId == request.runId
            && gate(PayloadContent(b.entries[0].payload)) && gate(JournalContent(b)))
      && (r.Ok? ==> r.value == WithDigest(b))
  {
    var b := BootstrapBody(request, capsule, at, nonce);
    assert EntryOk(b, 0);
    assert GateOpen(gate, b) <==> gate(PayloadContent(b.entries[0].payload)) && gate(JournalContent(b));
    assert WellFormed(b) <==> capsule.runId == request.runId;
  }

  // ---- exactly when a transition succeeds ---------------------------------------------------

  /** Operation records are judged without looking at phases, state or interruption. */
  lemma {:induction false} OperationsUnaffected(b: JournalBody, n: JournalBody)
    requires n.operations == b.operations && n.bootstrapOperations == b.bootstrapOperations
    requires n.request == b.request
    ensures OperationsOk(n) <==> OperationsOk(b)
  {
    assert forall i :: 0 <= i < |Operations(n)| ==> (OperationOk(b, i) <==> OperationOk(n, i));
    assert forall i :: 0 <= i < |BootstrapOperations(n)| ==>
      (BootstrapOperationOk(b, i) <==> BootstrapOperationOk(n, i));
  }

  lemma {:induction false} AppendedEntries(b: JournalBody, phase: Phase, payload: Payload, at: int)
    requires WellFormed(b) && NextPhase(b.currentPhase) == Some(phase) && payload.runId == b.request.runId
    ensures
      var n := Appended(b, phase, payload, at);
      && |n.entries| <= 17 && (forall i :: 0 <= i < |n.entries| ==> EntryOk(n, i))
      && (ClockOk(b) ==> (ClockOk(n) <==> b.entries[|b.entries| - 1].recordedAt <= at))
  {
    hide Correlated, Bound, OperationsOk, StateOk;
    var n := Appended(b, phase, payload, at);
    var last := |b.entries|;
    assert last == Index(b.currentPhase) + 1 by { assert Correlated(b); EntriesMatchPhase(b); }
    IndexOfPhaseAt(last);
    forall i | 0 <= i <= last ensures EntryOk(n, i) {
      if i < last { assert EntryOk(b, i) && n.entries[i] == b.entries[i]; }
    }
    assert n.entries[last].recordedAt == at && n.entries[last - 1] == b.entries[last - 1];
    if ClockOk(b) && b.entries[last - 1].recordedAt <= at {
      forall i | 0 < i <= last ensures n.entries[i - 1].recordedAt <= n.entries[i].recordedAt {
        if i < last { assert n.entries[i] == b.entries[i]; }
      }
    }
  }

  lemma {:induction false} EntriesMatchPhase(b: JournalBody)
    requires |b.entries| >= 1 && Correlated(b)
    ensures |b.entries| == Index(b.currentPhase) + 1
  {
  }

  /** Of an extended journal the gate can only object to the new payload or to the whole. */
  lemma {:induction false} AppendedGate(gate: Gate, b: JournalBody, phase: Phase, payload: Payload, at: int)
    requires GateOpen(gate, b)
    ensures
      var n := Appended(b, phase, payload, at);
      GateOpen(gate, n) <==> gate(PayloadContent(payload)) && gate(JournalContent(n))
  {
    var n := Appended(b, phase, payload, at);
    assert n.entries[|b.entries|].payload == payload;
    assert Operations(n) == Operations(b) && BootstrapOperations(n) == BootstrapOperations(b);
    if gate(PayloadContent(payload)) {
      forall i | 0 <= i < |n.entries| ensures gate(PayloadContent(n.entries[i].payload)) {
        if i < |b.entries| { assert n.entries[i] == b.entries[i]; }
      }
    }
  }

  lemma {:induction false} WellFormedStart(b: JournalBody)
    requires WellFormed(b)
    ensures |b.entries| >= 1 && (b.state == Complete <==> b.currentPhase == Completed)
  {
    hide EntryOk, OperationsOk;
  }

  /** The journal that an append of the next phase proposes passes all but the JSON gate and the clock. */
  lemma {:induction false} AppendedIsWellFormed(gate: Gate, j: Journal, phase: Phase, payload: Payload, at: int)
    requires Valid(gate, j) && payload.runId == j.body.request.runId && NextPhase(j.body.currentPhase) == Some(phase)
    ensures
      var n := Appended(j.body, phase, payload, at);
      WellFormed(n) && (ClockOk(n) <==> j.body.entries[|j.body.entries| - 1].recordedAt <= at)
  {
    hide EntryOk, OperationsOk, ClockOk;
    AppendedEntries(j.body, phase, payload, at);
    OperationsUnaffected(j.body, Appended(j.body, phase, payload, at));
    IndexOfPhaseAt(|j.body.entries|);
  }

  /** Appending the next phase to a valid journal can only be refused by the JSON
      gate or by a clock that went back; nothing else the closing parse checks can fail. */
  lemma {:induction false} AppendSucceedsExactly(gate: Gate, j: Journal, phase: Phase, payload: Payload, at: int)
    requires Valid(gate, j) && gate(PayloadContent(payload)) && payload.runId == j.body.request.runId
    requires NextPhase(j.body.currentPhase) == Some(phase)
    ensures Append(gate, j, phase, payload, at).Ok? <==>
      && j.body.entries[|j.body.entries| - 1].recordedAt <= at
      && gate(JournalContent(Appended(j.body, phase, payload, at)))
    ensures Append(gate, j, phase, payload, at).Ok? ==>
      Append(gate, j, phase, payload, at).value == WithDigest(Appended(j.body, phase, payload, at))
  {
    hide EntryOk, WellFormed, ClockOk;
    var b, n := j.body, Appended(j.body, phase, payload, at);
    AppendedIsWellFormed(gate, j, phase, payload, at);
    IndexOfPhaseAt(Index(b.currentPhase) + 1);
    WellFormedStart(b);
    AppendedGate(gate, b, phase, payload, at);
  }

  /** A replayed phase is accepted exactly when it carries the payload already recorded. */
  lemma {:induction false} ReplayIsIdempotent(gate: Gate, j: Journal, phase: Phase, payload: Payload, at: int)
    requires Valid(gate, j) && gate(PayloadContent(payload))
    requires Index(phase) <= Index(j.body.currentPhase)
    ensures Append(gate, j, phase, payload, at) ==
      if j.body.entries[Index(phase)].payload == payload then Ok(j) else Err(Refused)
  {
    assert EntryOk(j.body, Index(phase));
    PhaseAtIndex(phase);
  }

  /** Marking a valid unfinished journal can only be refused by the JSON gate or by a
      recovery command longer than the schema allows. */
  lemma {:induction false} MarkSucceedsExactly(gate: Gate, j: Journal, command: Contracts.Handle, signal: Signal)
    requires Valid(gate, j) && j.body.currentPhase != Completed
    ensures
      var next := NextPhase(j.body.currentPhase).value;
      var marked := Interrupted(j.body, next, command, signal);
      && (MarkRecoverable(gate, j, command, signal).Ok? <==>
            1 <= |command| <= MAX_COMMAND && gate(JournalContent(marked)))
      && (MarkRecoverable(gate, j, command, signal).Ok? ==>
            MarkRecoverable(gate, j, command, signal).value == WithDigest(marked))
  {
    hide OperationsOk;
    var b := j.body;
    var n := Interrupted(b, NextPhase(b.currentPhase).value, command, signal);
    PhaseAtIndex(b.currentPhase);
    assert forall i :: 0 <= i < |b.entries| ==> EntryOk(b, i) ==> EntryOk(n, i);
    OperationsUnaffected(b, n);
    assert WellFormed(n) <==> 1 <= |command| <= MAX_COMMAND;
    assert GateOpen(gate, n) <==> gate(JournalContent(n));
  }

  lemma {:induction false} OnlyOperationsDiffer(b: JournalBody, n: JournalBody)
    requires n == b.(operations := n.operations) && |b.entries| >= 1
    ensures Correlated(n) <==> Correlated(b)
    ensures Bound(n) <==> Bound(b)
    ensures StateOk(n) <==> StateOk(b)
    ensures ClockOk(n) <==> ClockOk(b)
    ensures |b.entries| <= 17 ==> forall i :: 0 <= i < |b.entries| ==> (EntryOk(b, i) <==> EntryOk(n, i))
    ensures forall i :: 0 <= i < |BootstrapOperations(b)| ==>
      (BootstrapOperationOk(b, i) <==> BootstrapOperationOk(n, i))
  {
  }

  lemma {:induction false} NewOperationJudged(b: JournalBody, command: Name, request: OperationRequest, at: int)
    requires OperationsOk(b)
    ensures OperationsOk(Intended(b, command, request, at)) <==> request.runId == b.request.runId
  {
    var n := Intended(b, command, request, at);
    var last := |Operations(b)|;
    assert forall i :: 0 <= i < last ==> (OperationOk(b, i) <==> OperationOk(n, i));
    assert OperationOk(n, last) <==> request.runId == b.request.runId;
    assert forall i :: 0 <= i < |BootstrapOperations(b)| ==>
      (BootstrapOperationOk(b, i) <==> BootstrapOperationOk(n, i));
  }

  /** A target operation can be recorded exactly while there is room, for a request of
      this run, and when both gates let it through. */
  lemma {:induction false} IntentSucceedsExactly(gate: Gate, j: Journal, command: Name, request: OperationRequest,
                                                 at: int)
    requires Valid(gate, j)
    ensures OperationIntent(gate, j, command, request, at).Ok? <==>
      && request.runId == j.body.request.runId
      && |Operations(j.body)| < MAX_OPERATIONS
      && gate(OperationRequestContent(request))
      && gate(JournalContent(Intended(j.body, command, request, at)))
  {
    hide EntryOk, ClockOk, StateOk, Correlated, Bound, OperationOk, BootstrapOperationOk;
    var b, n := j.body, Intended(j.body, command, request, at);
    var last := |Operations(b)|;
    assert Operations(n)[last].request == request;
    assert forall i :: 0 <= i < last ==> Operations(n)[i] == Operations(b)[i];
    OnlyOperationsDiffer(b, n);
    NewOperationJudged(b, command, request, at);
    assert GateOpen(gate, n) <==> gate(OperationRequestContent(request)) && gate(JournalContent(n));
  }
}
