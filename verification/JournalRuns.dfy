/** What every interleaving of journal transitions keeps, from genesis on. */
module JournalRuns {
  import opened Wrappers
  import opened Contracts
  import opened PhaseJournal

  datatype Action =
    | AppendAction(phase: Phase, payload: Payload, at: int)
    | BindAction(execution: Execution, binding: Receipt<BindingBody>)
    | MarkAction(command: Contracts.Handle, signal: Signal)
    | IntentAction(name: Name, request: OperationRequest, intentAt: int)
    | ObserveAction(id: Digest, state: OperationState, receipt: Option<Name>)
    | BootstrapIntentAction(kind: BootstrapKind, bootstrapRequest: OperationRequest, bootstrapAt: int)
    | BootstrapObserveAction(bootstrapId: Digest, bootstrapState: OperationState, bootstrapReceipt: Option<Name>)

  function Attempt(gate: Gate, j: Journal, a: Action): Result<Journal, JournalError> {
    match a
    case AppendAction(phase, payload, at) => Append(gate, j, phase, payload, at)
    case BindAction(x, binding) => Bind(gate, j, x, binding)
    case MarkAction(command, signal) => MarkRecoverable(gate, j, command, signal)
    case IntentAction(name, request, at) => OperationIntent(gate, j, name, request, at)
    case ObserveAction(id, state, receipt) => OperationObservation(gate, j, id, state, receipt)
    case BootstrapIntentAction(kind, request, at) => BootstrapIntent(gate, j, kind, request, at)
    case BootstrapObserveAction(id, state, receipt) => BootstrapObservation(gate, j, id, state, receipt)
  }

  /** A refused transition leaves the journal as it is. */
  function Step(gate: Gate, j: Journal, a: Action): Journal {
    match Attempt(gate, j, a)
    case Ok(next) => next
    case Err(_) => j
  }

  /** A step takes every transition that succeeds. */
  lemma {:induction false} StepTakes(gate: Gate, j: Journal, next: Journal)
    ensures forall p, x, at :: Append(gate, j, p, x, at) == Ok(next) ==> Step(gate, j, AppendAction(p, x, at)) == next
    ensures forall x, b :: Bind(gate, j, x, b) == Ok(next) ==> Step(gate, j, BindAction(x, b)) == next
    ensures forall c, s :: MarkRecoverable(gate, j, c, s) == Ok(next) ==> Step(gate, j, MarkAction(c, s)) == next
    ensures forall n, r, at :: OperationIntent(gate, j, n, r, at) == Ok(next) ==>
      Step(gate, j, IntentAction(n, r, at)) == next
    ensures forall id, s, r :: OperationObservation(gate, j, id, s, r) == Ok(next) ==>
      Step(gate, j, ObserveAction(id, s, r)) == next
    ensures forall k, r, at :: BootstrapIntent(gate, j, k, r, at) == Ok(next) ==>
      Step(gate, j, BootstrapIntentAction(k, r, at)) == next
    ensures forall id, s, r :: BootstrapObservation(gate, j, id, s, r) == Ok(next) ==>
      Step(gate, j, BootstrapObserveAction(id, s, r)) == next
  {
    hide Append, Bind, MarkRecoverable, OperationIntent, OperationObservation, BootstrapIntent, BootstrapObservation;
  }

  function Run(gate: Gate, j: Journal, actions: seq<Action>): Journal
    decreases |actions|
  {
    if actions == [] then j else Run(gate, Step(gate, j, actions[0]), actions[1..])
  }

  // ---- what is kept -------------------------------------------------------------------

  /** One operation record later on: a completed one is the same record, any other one
      keeps everything but its state. */
  predicate OperationKept(a: Operation, b: Operation) {
    && (a.state == OperationCompleted ==> b == a)
    && b == a.(state := b.state, receipt := b.receipt)
  }

  predicate BootstrapOperationKept(a: BootstrapOperation, b: BootstrapOperation) {
    && (a.state == OperationCompleted ==> b == a)
    && b == a.(state := b.state, receipt := b.receipt)
  }

  predicate OperationsKept(a: seq<Operation>, b: seq<Operation>) {
    |a| <= |b| && forall i :: 0 <= i < |a| ==> OperationKept(a[i], b[i])
  }

  predicate BootstrapOperationsKept(a: seq<BootstrapOperation>, b: seq<BootstrapOperation>) {
    |a| <= |b| && forall i :: 0 <= i < |a| ==> BootstrapOperationKept(a[i], b[i])
  }

  predicate IdentityKept(a: JournalBody, b: JournalBody) {
    && b.version == a.version && b.request == a.request && b.requestDigest == a.requestDigest
    && b.nonce == a.nonce && b.authority == a.authority && b.bootstrap == a.bootstrap
  }

  /** The later journal extends the earlier one and forgets nothing of it. */
  predicate Extends(a: JournalBody, b: JournalBody) {
    && IdentityKept(a, b)
    && a.entries <= b.entries
    && (a.execution.Some? ==> b.execution == a.execution)
    && (a.binding.Some? ==> b.binding == a.binding)
    && OperationsKept(Operations(a), Operations(b))
    && BootstrapOperationsKept(BootstrapOperations(a), BootstrapOperations(b))
  }

  predicate FourComplete(os: seq<BootstrapOperation>) {
    |os| >= 4 && forall i :: 0 <= i < 4 ==> os[i].state == OperationCompleted
  }

  /** On a bootstrap journal the execution is bound only after the four bootstrap
      operations are complete, and the run is prepared only after it is bound. */
  predicate Disciplined(b: JournalBody) {
    var os := BootstrapOperations(b);
    b.version == V2 ==>
      (b.execution.Some? ==> b.binding.Some? && FourComplete(os)) && (|os| == 5 ==> b.execution.Some?)
  }

  lemma {:induction false} ExtendsReflexive(a: JournalBody)
    ensures Extends(a, a)
  {
  }

  lemma {:induction false} ExtendsTransitive(a: JournalBody, b: JournalBody, c: JournalBody)
    requires Extends(a, b) && Extends(b, c)
    ensures Extends(a, c)
  {
    forall i | 0 <= i < |Operations(a)| ensures OperationKept(Operations(a)[i], Operations(c)[i]) {
      assert OperationKept(Operations(a)[i], Operations(b)[i]);
      assert OperationKept(Operations(b)[i], Operations(c)[i]);
    }
    forall i | 0 <= i < |BootstrapOperations(a)|
      ensures BootstrapOperationKept(BootstrapOperations(a)[i], BootstrapOperations(c)[i])
    {
      assert BootstrapOperationKept(BootstrapOperations(a)[i], BootstrapOperations(b)[i]);
      assert BootstrapOperationKept(BootstrapOperations(b)[i], BootstrapOperations(c)[i]);
    }
  }

  lemma {:induction false} ExtensionsCompose()
    ensures forall a, b, c :: Extends(a, b) && Extends(b, c) ==> Extends(a, c)
  {
    hide Extends;
    forall a, b, c | Extends(a, b) && Extends(b, c) ensures Extends(a, c) {
      ExtendsTransitive(a, b, c);
    }
  }

  // ---- one transition ---------------------------------------------------------------------

  /** Binding never changes the authority: a journal that can be bound was created
      with a bootstrap capsule, and such an authority does not name the execution. */
  lemma {:induction false} BindKeepsAuthority(gate: Gate, j: Journal, x: Execution, binding: Receipt<BindingBody>)
    requires Bind(gate, j, x, binding).Ok?
    ensures j.body.version == V2
    ensures Bind(gate, j, x, binding).value.body.authority == j.body.authority
  {
  }

  lemma {:induction false} BindKeeps(gate: Gate, j: Journal, x: Execution, binding: Receipt<BindingBody>)
    requires Disciplined(j.body) && Bind(gate, j, x, binding).Ok?
    ensures
      var n := Bind(gate, j, x, binding).value;
      Valid(gate, n) && Extends(j.body, n.body) && Disciplined(n.body) && n.body.execution.Some?
  {
    BindKeepsAuthority(gate, j, x, binding);
  }

  lemma {:induction false} AppendKeeps(gate: Gate, j: Journal, phase: Phase, payload: Payload, at: int)
    requires Disciplined(j.body) && Append(gate, j, phase, payload, at).Ok?
    ensures
      var n := Append(gate, j, phase, payload, at).value;
      Valid(gate, n) && Extends(j.body, n.body) && Disciplined(n.body)
  {
    hide GateOpen, WellFormed, ClockOk, JournalDigest, EntryOk, OperationOk, BootstrapOperationOk;
  }

  lemma {:induction false} MarkKeeps(gate: Gate, j: Journal, command: Contracts.Handle, signal: Signal)
    requires Disciplined(j.body) && MarkRecoverable(gate, j, command, signal).Ok?
    ensures
      var n := MarkRecoverable(gate, j, command, signal).value;
      Valid(gate, n) && Extends(j.body, n.body) && Disciplined(n.body)
      && n.body.entries == j.body.entries && n.body.currentPhase == j.body.currentPhase
  {
    hide GateOpen, WellFormed, ClockOk, JournalDigest, EntryOk, OperationOk, BootstrapOperationOk;
  }

  lemma {:induction false} IntentKeeps(gate: Gate, j: Journal, name: Name, request: OperationRequest, at: int)
    requires Disciplined(j.body) && OperationIntent(gate, j, name, request, at).Ok?
    ensures
      var n := OperationIntent(gate, j, name, request, at).value;
      Valid(gate, n) && Extends(j.body, n.body) && Disciplined(n.body)
  {
    hide GateOpen, WellFormed, ClockOk, JournalDigest, EntryOk, OperationOk, BootstrapOperationOk;
  }

  lemma {:induction false} ObservationKeeps(gate: Gate, j: Journal, id: Digest, state: OperationState,
                                            receipt: Option<Name>)
    requires Valid(gate, j) && Disciplined(j.body) && OperationObservation(gate, j, id, state, receipt).Ok?
    ensures
      var n := OperationObservation(gate, j, id, state, receipt).value;
      Valid(gate, n) && Extends(j.body, n.body) && Disciplined(n.body)
  {
    hide GateOpen, SchemaOk, Correlated, Bound, StateOk, ClockOk, JournalDigest, EntryOk,
      OperationRequestDigest, OperationId;
    var i := FindOperation(Operations(j.body), id).value;
    assert OperationOk(j.body, i);
  }

  lemma {:induction false} BootstrapIntentKeeps(gate: Gate, j: Journal, kind: BootstrapKind, request: OperationRequest,
                                                at: int)
    requires Valid(gate, j) && Disciplined(j.body) && BootstrapIntent(gate, j, kind, request, at).Ok?
    ensures
      var n := BootstrapIntent(gate, j, kind, request, at).value;
      Valid(gate, n) && Extends(j.body, n.body) && Disciplined(n.body)
  {
  }

  lemma {:induction false} BootstrapObservationKeeps(gate: Gate, j: Journal, id: Digest, state: OperationState,
                                                     receipt: Option<Name>)
    requires Valid(gate, j) && Disciplined(j.body) && BootstrapObservation(gate, j, id, state, receipt).Ok?
    ensures
      var n := BootstrapObservation(gate, j, id, state, receipt).value;
      Valid(gate, n) && Extends(j.body, n.body) && Disciplined(n.body)
  {
    hide GateOpen, WellFormed, ClockOk, JournalDigest, EntryOk, OperationOk, BootstrapOperationOk;
  }

  lemma {:induction false} StepKeeps(gate: Gate, j: Journal, a: Action)
    requires Valid(gate, j) && Disciplined(j.body)
    ensures
      var n := Step(gate, j, a);
      Valid(gate, n) && Extends(j.body, n.body) && Disciplined(n.body)
  {
    hide Valid, Disciplined, Extends, Append, Bind, MarkRecoverable, OperationIntent,
         OperationObservation, BootstrapIntent, BootstrapObservation;
    if Attempt(gate, j, a).Ok? {
      match a {
        case AppendAction(phase, payload, at) => AppendKeeps(gate, j, phase, payload, at);
        case BindAction(x, binding) => BindKeeps(gate, j, x, binding);
        case MarkAction(command, signal) => MarkKeeps(gate, j, command, signal);
        case IntentAction(name, request, at) => IntentKeeps(gate, j, name, request, at);
        case ObserveAction(id, state, receipt) => ObservationKeeps(gate, j, id, state, receipt);
        case BootstrapIntentAction(kind, request, at) => BootstrapIntentKeeps(gate, j, kind, request, at);
        case BootstrapObserveAction(id, state, receipt) => BootstrapObservationKeeps(gate, j, id, state, receipt);
      }
    } else {
      ExtendsReflexive(j.body);
    }
  }

  // ---- every run ------------------------------------------------------------------------------

  lemma {:induction false} RunKeeps(gate: Gate, j: Journal, actions: seq<Action>)
    requires Valid(gate, j) && Disciplined(j.body)
    ensures
      var n := Run(gate, j, actions);
      Valid(gate, n) && Extends(j.body, n.body) && Disciplined(n.body)
    decreases |actions|
  {
    hide Valid, Disciplined, Extends, Step;
    if actions == [] {
      ExtendsReflexive(j.body);
    } else {
      var next := Step(gate, j, actions[0]);
      StepKeeps(gate, j, actions[0]);
      RunKeeps(gate, next, actions[1..]);
      ExtendsTransitive(j.body, next.body, Run(gate, j, actions).body);
    }
  }

  /** How many transitions of the run bound an execution. */
  function Bindings(gate: Gate, j: Journal, actions: seq<Action>): nat
    decreases |actions|
  {
    if actions == [] then 0
    else
      (if actions[0].BindAction? && Attempt(gate, j, actions[0]).Ok? then 1 else 0)
      + Bindings(gate, Step(gate, j, actions[0]), actions[1..])
  }

  lemma {:induction false} BoundOnlyOnce(gate: Gate, j: Journal, x: Execution, binding: Receipt<BindingBody>)
    requires j.body.execution.Some?
    ensures Bind(gate, j, x, binding).Err?
  {
  }

  lemma {:induction false} BindsAtMostOnce(gate: Gate, j: Journal, actions: seq<Action>)
    requires Valid(gate, j) && Disciplined(j.body)
    ensures Bindings(gate, j, actions) <= if j.body.execution.Some? then 0 else 1
    decreases |actions|
  {
    hide Valid, Disciplined, Bind, Step, Extends;
    if actions != [] {
      var next := Step(gate, j, actions[0]);
      StepKeeps(gate, j, actions[0]);
      BindsAtMostOnce(gate, next, actions[1..]);
      assert j.body.execution.Some? ==> next.body.execution == j.body.execution by {
        ExtendsKeepsExecution(j.body, next.body);
      }
      if actions[0].BindAction? {
        if j.body.execution.Some? { BoundOnlyOnce(gate, j, actions[0].execution, actions[0].binding); }
        if Attempt(gate, j, actions[0]).Ok? {
          BindKeeps(gate, j, actions[0].execution, actions[0].binding);
          StepOfSuccess(gate, j, actions[0]);
        }
      }
    }
  }

  lemma {:induction false} ExtendsKeepsExecution(a: JournalBody, b: JournalBody)
    requires Extends(a, b)
    ensures a.execution.Some? ==> b.execution == a.execution
  {
  }

  lemma {:induction false} ExtendsKeepsEntries(a: JournalBody, b: JournalBody)
    requires Extends(a, b)
    ensures a.entries <= b.entries && b.authority == a.authority
  {
  }

  lemma {:induction false} ExtendsKeepsVersion(a: JournalBody, b: JournalBody)
    requires Extends(a, b)
    ensures b.version == a.version
  {
  }

  lemma {:induction false} StepOfSuccess(gate: Gate, j: Journal, a: Action)
    requires Attempt(gate, j, a).Ok?
    ensures Step(gate, j, a) == Attempt(gate, j, a).value
  {
  }

  /** One of the two journals a run is started with. */
  ghost predicate FromGenesis(gate: Gate, j: Journal) {
    || (exists request, at, nonce, execution :: Genesis(gate, request, at, nonce, execution) == Ok(j))
    || (exists request, capsule, at, nonce :: BootstrapGenesis(gate, request, capsule, at, nonce) == Ok(j))
  }

  /** Either genesis journal is accepted, holds the request alone, and has nothing bound or recorded
      that is not in its authority. */
  lemma {:induction false} GenesisStarts(gate: Gate, j: Journal)
    requires FromGenesis(gate, j)
    ensures Valid(gate, j) && Disciplined(j.body) && |j.body.entries| == 1
    ensures j.body.entries[0].payload == Payload(j.body.request.runId, RequestFact(RequestDigest(j.body.request)))
    ensures Operations(j.body) == [] && BootstrapOperations(j.body) == []
    ensures j.body.version == V2 ==> j.body.execution.None?
  {
    hide Valid;
    if request, at, nonce, execution :| Genesis(gate, request, at, nonce, execution) == Ok(j) {
      GenesisSucceedsExactly(gate, request, at, nonce, execution);
    } else {
      var request, capsule, at, nonce :| BootstrapGenesis(gate, request, capsule, at, nonce) == Ok(j);
      BootstrapGenesisSucceedsExactly(gate, request, capsule, at, nonce);
    }
  }

  /** From either genesis, every reachable journal keeps its request, nonce, authority and
      first entry, numbers its operations by position, never rewrites a completed record,
      and binds at most once and in the prescribed order. */
  lemma {:induction false} EveryRunFromGenesis(gate: Gate, genesis: Journal, actions: seq<Action>)
    requires FromGenesis(gate, genesis)
    ensures
      var b := Run(gate, genesis, actions).body;
      && b.request == genesis.body.request && b.nonce == genesis.body.nonce
      && b.authority == genesis.body.authority
      && |b.entries| >= 1 && b.entries[0] == genesis.body.entries[0]
      && (forall i :: 0 <= i < |Operations(b)| ==> Operations(b)[i].sequence == i)
      && (forall i :: 0 <= i < |BootstrapOperations(b)| ==> BootstrapInOrder(BootstrapOperations(b), i))
      && Extends(genesis.body, b) && Disciplined(b)
      && (b.version == V1 ==> b.execution == genesis.body.execution && Bindings(gate, genesis, actions) == 0)
      && Bindings(gate, genesis, actions) <= 1
  {
    hide FromGenesis, Valid, Disciplined, OperationsKept, BootstrapOperationsKept, Run, Bindings;
    GenesisStarts(gate, genesis);
    RunKeeps(gate, genesis, actions);
    BindsAtMostOnce(gate, genesis, actions);
    if genesis.body.version == V1 { VersionOneNeverBinds(gate, genesis, actions); }
    RecordsInOrder(gate, Run(gate, genesis, actions));
  }

  lemma {:induction false} RecordsInOrder(gate: Gate, j: Journal)
    requires Valid(gate, j)
    ensures |j.body.entries| >= 1
    ensures forall i :: 0 <= i < |Operations(j.body)| ==> Operations(j.body)[i].sequence == i
    ensures forall i :: 0 <= i < |BootstrapOperations(j.body)| ==> BootstrapInOrder(BootstrapOperations(j.body), i)
  {
    hide GateOpen, Bound, ClockOk, StateOk, EntryOk, JournalDigest, Correlated, BootstrapInOrder, OperationOk,
         BootstrapOperationOk;
    forall i | 0 <= i < |Operations(j.body)| ensures Operations(j.body)[i].sequence == i {
      OperationInOrder(j.body, i);
    }
    forall i | 0 <= i < |BootstrapOperations(j.body)| ensures BootstrapInOrder(BootstrapOperations(j.body), i) {
      BootstrapIsInOrder(j.body, i);
    }
  }

  predicate BootstrapInOrder(os: seq<BootstrapOperation>, i: nat)
    requires i < |os|
  {
    i < 5 && os[i].sequence == i && os[i].kind == BOOTSTRAP_KINDS[i]
  }

  lemma {:induction false} OperationInOrder(b: JournalBody, i: nat)
    requires i < |Operations(b)| && OperationOk(b, i)
    ensures Operations(b)[i].sequence == i
  {
  }

  lemma {:induction false} BootstrapIsInOrder(b: JournalBody, i: nat)
    requires i < |BootstrapOperations(b)| && BootstrapOperationOk(b, i)
    ensures BootstrapInOrder(BootstrapOperations(b), i)
  {
  }

  /** A completed record stays the same record over every run. */
  lemma {:induction false} CompletedRecordsAreImmutable(gate: Gate, j: Journal, actions: seq<Action>, i: nat)
    requires Valid(gate, j) && Disciplined(j.body)
    requires i < |Operations(j.body)| && Operations(j.body)[i].state == OperationCompleted
    ensures i < |Operations(Run(gate, j, actions).body)|
    ensures Operations(Run(gate, j, actions).body)[i] == Operations(j.body)[i]
  {
    RunKeeps(gate, j, actions);
    assert OperationKept(Operations(j.body)[i], Operations(Run(gate, j, actions).body)[i]);
  }

  /** A version 1 journal is never bound: only a bootstrap journal can be. */
  lemma {:induction false} VersionOneNeverBinds(gate: Gate, j: Journal, actions: seq<Action>)
    requires Valid(gate, j) && Disciplined(j.body) && j.body.version == V1
    ensures Run(gate, j, actions).body.execution == j.body.execution
    ensures Bindings(gate, j, actions) == 0
    decreases |actions|
  {
    hide Valid, Disciplined, Extends, Bind;
    if actions != [] {
      var next := Step(gate, j, actions[0]);
      StepKeeps(gate, j, actions[0]);
      if actions[0].BindAction? && Attempt(gate, j, actions[0]).Ok? {
        BindKeepsAuthority(gate, j, actions[0].execution, actions[0].binding);
      }
      OnlyBindSetsExecution(gate, j, actions[0]);
      assert next.body.execution == j.body.execution;
      assert next.body.version == V1 by { ExtendsKeepsVersion(j.body, next.body); }
      VersionOneNeverBinds(gate, next, actions[1..]);
    }
  }

  lemma {:induction false} OnlyBindSetsExecution(gate: Gate, j: Journal, a: Action)
    ensures !a.BindAction? ==> Step(gate, j, a).body.execution == j.body.execution
  {
  }
}
