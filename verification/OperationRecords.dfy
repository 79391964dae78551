/** The operation records of a journal: exactly when an intent, an observation or the binding
    is accepted, what it leaves, and what a lookup after it finds. */
module OperationRecords {
  import opened Wrappers
  import opened Contracts
  import opened PhaseJournal

  // ---- target operations ----------------------------------------------------------------------

  predicate IsFor(o: Operation, command: Name, digest: Digest) { o.command == command && o.requestDigest == digest }

  /** currentTargetOperation: the first record of this command and request. */
  function CurrentOperation(os: seq<Operation>, command: Name, request: OperationRequest): Option<Operation> {
    if os == [] then None
    else if IsFor(os[0], command, OperationRequestDigest(request)) then Some(os[0])
    else CurrentOperation(os[1..], command, request)
  }

  lemma {:induction false} CurrentIsFirst(os: seq<Operation>, command: Name, request: OperationRequest, i: nat)
    requires i < |os| && IsFor(os[i], command, OperationRequestDigest(request))
    requires forall k :: 0 <= k < i ==> !IsFor(os[k], command, OperationRequestDigest(request))
    ensures CurrentOperation(os, command, request) == Some(os[i])
  {
    if i > 0 { CurrentIsFirst(os[1..], command, request, i - 1); }
  }

  /** The place of the first record, when there is one. */
  lemma {:induction false} CurrentPlace(os: seq<Operation>, command: Name, request: OperationRequest) returns (i: nat)
    requires CurrentOperation(os, command, request).Some?
    ensures i < |os| && IsFor(os[i], command, OperationRequestDigest(request))
    ensures forall k :: 0 <= k < i ==> !IsFor(os[k], command, OperationRequestDigest(request))
  {
    if IsFor(os[0], command, OperationRequestDigest(request)) { return 0; }
    i := CurrentPlace(os[1..], command, request);
    i := i + 1;
  }

  /** No two records of one journal have the same identity. */
  lemma {:induction false} IdentitiesDiffer(b: JournalBody, i: nat, j: nat)
    requires OperationsOk(b) && i < |Operations(b)| && j < |Operations(b)|
    requires Operations(b)[i].id == Operations(b)[j].id
    ensures i == j
  {
    assert OperationOk(b, i) && OperationOk(b, j);
  }

  function Observed(o: Operation, state: OperationState, receipt: Option<Name>): Operation {
    o.(state := state, receipt := receipt)
  }

  function WithOperation(b: JournalBody, i: nat, o: Operation): JournalBody
    requires i < |Operations(b)|
  {
    b.(operations := Some(Operations(b)[i := o]))
  }

  /** An observation is accepted exactly for a record that is not yet completed, with a receipt
      if and only if it completes, in one of the states the schema has; then that record, and
      no other, has that state and receipt. */
  lemma {:induction false} ObservationSucceedsExactly(gate: Gate, j: Journal, i: nat, state: OperationState,
                                                      receipt: Option<Name>)
    requires Valid(gate, j) && i < |Operations(j.body)|
    ensures
      var o := Operations(j.body)[i];
      var n := WithOperation(j.body, i, Observed(o, state, receipt));
      var r := OperationObservation(gate, j, o.id, state, receipt);
      && (r.Ok? <==>
            && o.state != OperationCompleted && (state == OperationCompleted <==> receipt.Some?)
            && state != Ambiguous && gate(JournalContent(n)))
      && (r.Ok? ==> r.value == WithDigest(n))
  {
    hide EntryOk, ClockOk, StateOk, Correlated, Bound, BootstrapOperationOk;
    var b, o := j.body, Operations(j.body)[i];
    FoundItself(b, i);
    assert OperationOk(b, i);
    if o.state != OperationCompleted && (state == OperationCompleted <==> receipt.Some?) {
      assert o.receipt.None?;
      var n := WithOperation(b, i, Observed(o, state, receipt));
      OnlyOperationsDiffer(b, n);
      assert forall k :: 0 <= k < |Operations(b)| ==> Operations(n)[k].request == Operations(b)[k].request;
      assert Operations(n)[i].state == state;
      assert SchemaOk(n) <==> state != Ambiguous;
      ObservedIsOk(b, i, state, receipt);
      assert GateOpen(gate, n) <==> gate(JournalContent(n));
    }
  }

  lemma {:induction false} FoundItself(b: JournalBody, i: nat)
    requires OperationsOk(b) && i < |Operations(b)|
    ensures FindOperation(Operations(b), Operations(b)[i].id) == Some(i) && Operations(b)[i].sequence == i
  {
    var id := Operations(b)[i].id;
    assert OperationOk(b, i);
    assert FindOperation(Operations(b), id).Some?;
    IdentitiesDiffer(b, FindOperation(Operations(b), id).value, i);
  }

  lemma {:induction false} ObservedIsOk(b: JournalBody, i: nat, state: OperationState, receipt: Option<Name>)
    requires OperationsOk(b) && i < |Operations(b)| && (state == OperationCompleted <==> receipt.Some?)
    ensures OperationsOk(WithOperation(b, i, Observed(Operations(b)[i], state, receipt)))
  {
    var n := WithOperation(b, i, Observed(Operations(b)[i], state, receipt));
    forall k | 0 <= k < |Operations(n)| ensures OperationOk(n, k) { assert OperationOk(b, k); }
    forall k | 0 <= k < |BootstrapOperations(n)| ensures BootstrapOperationOk(n, k) {
      assert BootstrapOperationOk(b, k);
    }
  }

  /** After the first intent for a request and an observation of it, a lookup by that request
      finds what was observed: a resumed caller asks about the operation instead of repeating it. */
  lemma {:induction false} LookupFindsTheObservation(gate: Gate, j: Journal, command: Name, request: OperationRequest,
                                                     at: int, state: OperationState, receipt: Option<Name>)
    requires Valid(gate, j) && CurrentOperation(Operations(j.body), command, request).None?
    requires OperationIntent(gate, j, command, request, at).Ok?
    ensures
      var intended := OperationIntent(gate, j, command, request, at).value;
      var last := |Operations(j.body)|;
      && last < |Operations(intended.body)|
      && CurrentOperation(Operations(intended.body), command, request) == Some(Operations(intended.body)[last])
      && Operations(intended.body)[last].state == IntentDurable
      && var r := OperationObservation(gate, intended, Operations(intended.body)[last].id, state, receipt);
         r.Ok? ==> CurrentOperation(Operations(r.value.body), command, request)
                   == Some(Observed(Operations(intended.body)[last], state, receipt))
  {
    hide Valid;
    IntentSucceedsExactly(gate, j, command, request, at);
    var intended := OperationIntent(gate, j, command, request, at).value;
    var before, os := Operations(j.body), Operations(intended.body);
    var last := |before|;
    assert Valid(gate, intended) && intended == WithDigest(Intended(j.body, command, request, at));
    assert os[..last] == before;
    NoneBefore(before, command, request);
    CurrentIsFirst(os, command, request, last);
    var r := OperationObservation(gate, intended, os[last].id, state, receipt);
    ObservationSucceedsExactly(gate, intended, last, state, receipt);
    if r.Ok? {
      var changed := Operations(r.value.body);
      assert changed == os[last := Observed(os[last], state, receipt)];
      CurrentIsFirst(changed, command, request, last);
    }
  }

  lemma {:induction false} NoneBefore(os: seq<Operation>, command: Name, request: OperationRequest)
    requires CurrentOperation(os, command, request).None?
    ensures forall k :: 0 <= k < |os| ==> !IsFor(os[k], command, OperationRequestDigest(request))
  {
    if os != [] {
      NoneBefore(os[1..], command, request);
      forall k | 0 <= k < |os| ensures !IsFor(os[k], command, OperationRequestDigest(request)) {
        if k > 0 { assert os[k] == os[1..][k - 1]; }
      }
    }
  }

  /** The same request may be intended again, under a new identity, but the lookup goes on
      finding the first record. */
  lemma {:induction false} SecondIntentIsShadowed(gate: Gate, j: Journal, command: Name, request: OperationRequest,
                                                  at: int)
    requires Valid(gate, j) && CurrentOperation(Operations(j.body), command, request).Some?
    requires OperationIntent(gate, j, command, request, at).Ok?
    ensures
      var n := OperationIntent(gate, j, command, request, at).value.body;
      && CurrentOperation(Operations(n), command, request) == CurrentOperation(Operations(j.body), command, request)
      && |Operations(n)| == |Operations(j.body)| + 1
      && forall i :: 0 <= i < |Operations(j.body)| ==> Operations(n)[i].id != Operations(n)[|Operations(j.body)|].id
  {
    hide Valid, OperationsOk;
    var n := OperationIntent(gate, j, command, request, at).value.body;
    assert n == Intended(j.body, command, request, at);
    var i := CurrentPlace(Operations(j.body), command, request);
    CurrentIsFirst(Operations(j.body), command, request, i);
    CurrentIsFirst(Operations(n), command, request, i);
    OperationsOfValid(gate, OperationIntent(gate, j, command, request, at).value);
    forall k | 0 <= k < |Operations(j.body)|
      ensures Operations(n)[k].id != Operations(n)[|Operations(j.body)|].id
    {
      if Operations(n)[k].id == Operations(n)[|Operations(j.body)|].id {
        IdentitiesDiffer(n, k, |Operations(j.body)|);
      }
    }
  }

  lemma {:induction false} OperationsOfValid(gate: Gate, j: Journal)
    requires Valid(gate, j)
    ensures OperationsOk(j.body)
  {
  }

  // ---- bootstrap operations and the binding -------------------------------------------------------

  function NewBootstrap(b: JournalBody, kind: BootstrapKind, request: OperationRequest, at: int): BootstrapOperation {
    var digest := BootstrapRequestDigest(kind, request);
    BootstrapOperation(kind, BootstrapOperationId(kind, digest, |BootstrapOperations(b)|), at, request, digest,
                       |BootstrapOperations(b)|, IntentDurable, None)
  }

  function WithBootstrap(b: JournalBody, os: seq<BootstrapOperation>): JournalBody {
    b.(bootstrapOperations := Some(os))
  }

  predicate AllComplete(os: seq<BootstrapOperation>) {
    forall i :: 0 <= i < |os| ==> os[i].state == OperationCompleted
  }

  /** The next bootstrap operation may be intended exactly in its turn, when all before it are
      completed, and for the last one exactly when the execution is bound. */
  lemma {:induction false} BootstrapIntentSucceedsExactly(gate: Gate, j: Journal, kind: BootstrapKind,
                                                          request: OperationRequest, at: int)
    requires Valid(gate, j)
    ensures
      var os := BootstrapOperations(j.body);
      var n := WithBootstrap(j.body, os + [NewBootstrap(j.body, kind, request, at)]);
      var r := BootstrapIntent(gate, j, kind, request, at);
      && (r.Ok? <==>
            && j.body.version == V2 && |os| < 5 && kind == BOOTSTRAP_KINDS[|os|] && AllComplete(os)
            && (|os| == 4 <==> j.body.execution.Some?)
            && gate(OperationRequestContent(request)) && gate(JournalContent(n)))
      && (r.Ok? ==> r.value == WithDigest(n))
  {
    hide EntryOk, ClockOk, StateOk, Bound, OperationOk;
    var b, os := j.body, BootstrapOperations(j.body);
    var n := WithBootstrap(b, os + [NewBootstrap(b, kind, request, at)]);
    KindsInTurn(b);
    if b.version == V2 && |os| < 5 && kind == BOOTSTRAP_KINDS[|os|] && AllComplete(os) {
      OnlyBootstrapDiffers(b, n);
      NewBootstrapIsOk(b, kind, request, at);
      assert BootstrapOperations(n)[|os|].request == request;
      assert forall i :: 0 <= i < |os| ==> BootstrapOperations(n)[i] == os[i];
      assert GateOpen(gate, n) <==> gate(OperationRequestContent(request)) && gate(JournalContent(n));
    }
  }

  lemma {:induction false} KindsInTurn(b: JournalBody)
    requires OperationsOk(b)
    ensures
      var os := BootstrapOperations(b);
      |os| <= 5 && forall i :: 0 <= i < |os| ==> os[i].kind == BOOTSTRAP_KINDS[i]
    ensures |BootstrapOperations(b)| < 5 ==> !HasKind(BootstrapOperations(b), BOOTSTRAP_KINDS[|BootstrapOperations(b)|])
  {
    var os := BootstrapOperations(b);
    if os != [] { assert BootstrapOperationOk(b, |os| - 1); }
    forall i | 0 <= i < |os| ensures os[i].kind == BOOTSTRAP_KINDS[i] { assert BootstrapOperationOk(b, i); }
  }

  lemma {:induction false} OnlyBootstrapDiffers(b: JournalBody, n: JournalBody)
    requires n == b.(bootstrapOperations := n.bootstrapOperations) && |b.entries| >= 1 && b.version == V2
    ensures Correlated(n) <==> Correlated(b)
    ensures Bound(n) <==> Bound(b)
    ensures StateOk(n) <==> StateOk(b)
    ensures ClockOk(n) <==> ClockOk(b)
    ensures |b.entries| <= 17 ==> forall i :: 0 <= i < |b.entries| ==> (EntryOk(b, i) <==> EntryOk(n, i))
    ensures forall i :: 0 <= i < |Operations(b)| ==> (OperationOk(b, i) <==> OperationOk(n, i))
  {
  }

  lemma {:induction false} NewBootstrapIsOk(b: JournalBody, kind: BootstrapKind, request: OperationRequest, at: int)
    requires OperationsOk(b) && AllComplete(BootstrapOperations(b))
    requires |BootstrapOperations(b)| < 5 && kind == BOOTSTRAP_KINDS[|BootstrapOperations(b)|]
    ensures OperationsOk(WithBootstrap(b, BootstrapOperations(b) + [NewBootstrap(b, kind, request, at)]))
  {
    var n := WithBootstrap(b, BootstrapOperations(b) + [NewBootstrap(b, kind, request, at)]);
    forall i | 0 <= i < |BootstrapOperations(n)| ensures BootstrapOperationOk(n, i) {
      if i < |BootstrapOperations(b)| { assert BootstrapOperationOk(b, i); }
    }
    forall i | 0 <= i < |Operations(n)| ensures OperationOk(n, i) { assert OperationOk(b, i); }
  }

  function Settled(o: BootstrapOperation, state: OperationState, receipt: Option<Name>): BootstrapOperation {
    o.(state := state, receipt := receipt)
  }

  /** Only the last bootstrap operation can still be observed, and the observation changes only
      its state and receipt. */
  lemma {:induction false} BootstrapObservationSucceedsExactly(gate: Gate, j: Journal, i: nat, state: OperationState,
                                                               receipt: Option<Name>)
    requires Valid(gate, j) && i < |BootstrapOperations(j.body)|
    ensures
      var os := BootstrapOperations(j.body);
      var n := WithBootstrap(j.body, os[i := Settled(os[i], state, receipt)]);
      var r := BootstrapObservation(gate, j, os[i].id, state, receipt);
      && (r.Ok? <==>
            && i == |os| - 1 && os[i].state != OperationCompleted && (state == OperationCompleted <==> receipt.Some?)
            && gate(JournalContent(n)))
      && (r.Ok? ==> r.value == WithDigest(n))
  {
    hide EntryOk, ClockOk, StateOk, Bound, OperationOk;
    var b, os := j.body, BootstrapOperations(j.body);
    assert BootstrapOperationOk(b, i);
    BootstrapFoundItself(b, i);
    if os[i].state != OperationCompleted && (state == OperationCompleted <==> receipt.Some?) {
      assert os[i].receipt.None? && i == |os| - 1;
      var n := WithBootstrap(b, os[i := Settled(os[i], state, receipt)]);
      OnlyBootstrapDiffers(b, n);
      assert forall k :: 0 <= k < |os| ==> BootstrapOperations(n)[k].request == os[k].request;
      SettledIsOk(b, state, receipt);
      assert GateOpen(gate, n) <==> gate(JournalContent(n));
    }
  }

  lemma {:induction false} BootstrapFoundItself(b: JournalBody, i: nat)
    requires OperationsOk(b) && i < |BootstrapOperations(b)|
    ensures FindBootstrapOperation(BootstrapOperations(b), BootstrapOperations(b)[i].id) == Some(i)
  {
    var os := BootstrapOperations(b);
    var found := FindBootstrapOperation(os, os[i].id);
    assert found.Some?;
    assert BootstrapOperationOk(b, i) && BootstrapOperationOk(b, found.value);
  }

  lemma {:induction false} SettledIsOk(b: JournalBody, state: OperationState, receipt: Option<Name>)
    requires OperationsOk(b) && BootstrapOperations(b) != [] && (state == OperationCompleted <==> receipt.Some?)
    ensures
      var os := BootstrapOperations(b);
      OperationsOk(WithBootstrap(b, os[|os| - 1 := Settled(os[|os| - 1], state, receipt)]))
  {
    var os := BootstrapOperations(b);
    var n := WithBootstrap(b, os[|os| - 1 := Settled(os[|os| - 1], state, receipt)]);
    forall k | 0 <= k < |os| ensures BootstrapOperationOk(n, k) { assert BootstrapOperationOk(b, k); }
    forall k | 0 <= k < |Operations(n)| ensures OperationOk(n, k) { assert OperationOk(b, k); }
  }

  function BoundBody(b: JournalBody, x: Execution, binding: Receipt<BindingBody>): JournalBody {
    b.(binding := Some(binding), execution := Some(x))
  }

  /** Binding succeeds exactly once the four bootstrap operations of an unbound version 2 journal
      are completed and nothing else was done, for an execution that fits the request and a
      binding that seals just this journal, execution and target; it changes nothing else. */
  lemma {:induction false} BindSucceedsExactly(gate: Gate, j: Journal, x: Execution, binding: Receipt<BindingBody>)
    requires Valid(gate, j)
    ensures
      var b := j.body;
      var n := BoundBody(b, x, binding);
      var r := Bind(gate, j, x, binding);
      && (r.Ok? <==>
            && b.version == V2 && b.execution.None? && b.currentPhase == Requested && Operations(b) == []
            && |BootstrapOperations(b)| == 4 && AllComplete(BootstrapOperations(b))
            && ExecutionFits(b, x) && Bound(n) && gate(ExecutionContent(x)) && gate(JournalContent(n)))
      && (r.Ok? ==> r.value == WithDigest(n))
  {
    hide EntryOk, ClockOk, StateOk, OperationOk, BootstrapOperationOk;
    var b, n := j.body, BoundBody(j.body, x, binding);
    if b.version == V2 && b.execution.None? {
      assert Authority(b.bootstrap, Some(x), b.nonce, b.entries[0].recordedAt, b.requestDigest) == b.authority;
      ExecutionUnread(b, n);
      assert Correlated(n) <==> ExecutionFits(b, x);
      assert GateOpen(gate, n) <==> gate(JournalContent(n));
    }
  }

  lemma {:induction false} ExecutionUnread(b: JournalBody, n: JournalBody)
    requires n == b.(binding := n.binding, execution := n.execution)
    ensures StateOk(n) <==> StateOk(b)
    ensures ClockOk(n) <==> ClockOk(b)
    ensures OperationsOk(n) <==> OperationsOk(b)
    ensures |b.entries| <= 17 ==> forall i :: 0 <= i < |b.entries| ==> (EntryOk(b, i) <==> EntryOk(n, i))
  {
    assert forall i :: 0 <= i < |Operations(b)| ==> (OperationOk(b, i) <==> OperationOk(n, i));
    assert forall i :: 0 <= i < |BootstrapOperations(b)| ==>
      (BootstrapOperationOk(b, i) <==> BootstrapOperationOk(n, i));
  }
}
