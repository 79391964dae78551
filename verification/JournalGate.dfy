/** The JSON gate on a journal, taken apart: a size check on the whole text, and a secret check that
    looks at one string at a time. Only the size half can refuse what was checked before. */
module JournalGate {
  import opened Wrappers
  import opened Text
  import opened Formats
  import opened JsonText
  import opened JsonGate
  import opened Contracts
  import opened PhaseJournal
  import opened Secrets
  import RecoveryCommand

  // ---- the text of a journal -----------------------------------------------------------------------

  datatype Field =
    | AuthorityDigestField | BootstrapField | BootstrapBindingField | BootstrapOperationsField | CommandField
    | CurrentPhaseField | EntriesField | ExecutionField | GenesisNonceField | InterruptionField | JournalDigestField
    | KindField | NextPhaseField | OperationIdField | OperationsField | PayloadField | PayloadDigestField | PhaseField
    | ReceiptField | RecordedAtField | RecoveryCommandField | RequestField | RequestDigestField | SequenceField
    | SignalField | StateField | TargetReceiptField | VersionField

  datatype Label =
    | PhaseLabel(phase: Phase) | StateLabel(state: State) | SignalLabel(signal: Signal) | VersionLabel(version: Version)
    | OperationStateLabel(operationState: OperationState) | KindLabel(kind: BootstrapKind)

  /** How the parts are written that the journal's own structure does not fix. */
  datatype Spelling = Spelling(
    field: Field -> Text, caption: Label -> Text, digest: Digest -> Text, time: int -> Text, name: Name -> Text,
    number: nat -> Json, request: Request -> Json, payload: Payload -> Json, operationRequest: OperationRequest -> Json,
    receipt: Name -> Json, capsule: Capsule -> Json, binding: Receipt<BindingBody> -> Json,
    execution: Execution -> Json)

  function EntryJson(sp: Spelling, e: Entry): Json {
    Obj([Member(sp.field(PayloadField), sp.payload(e.payload)),
         Member(sp.field(PayloadDigestField), Str(sp.digest(e.payloadDigest))),
         Member(sp.field(PhaseField), Str(sp.caption(PhaseLabel(e.phase)))),
         Member(sp.field(RecordedAtField), Str(sp.time(e.recordedAt))),
         Member(sp.field(SequenceField), sp.number(e.sequence))])
  }

  function Optional(key: Text, v: Option<Json>): seq<Member> { if v.None? then [] else [Member(key, v.value)] }

  function ReceiptJson(sp: Spelling, r: Option<Name>): Option<Json> {
    if r.None? then None else Some(sp.receipt(r.value))
  }

  function OperationJson(sp: Spelling, o: Operation): Json {
    Obj([Member(sp.field(CommandField), Str(sp.name(o.command))),
         Member(sp.field(OperationIdField), Str(sp.digest(o.id))),
         Member(sp.field(RecordedAtField), Str(sp.time(o.recordedAt))),
         Member(sp.field(RequestField), sp.operationRequest(o.request)),
         Member(sp.field(RequestDigestField), Str(sp.digest(o.requestDigest))),
         Member(sp.field(SequenceField), sp.number(o.sequence)),
         Member(sp.field(StateField), Str(sp.caption(OperationStateLabel(o.state))))]
        + Optional(sp.field(TargetReceiptField), ReceiptJson(sp, o.receipt)))
  }

  function BootstrapJson(sp: Spelling, o: BootstrapOperation): Json {
    Obj([Member(sp.field(KindField), Str(sp.caption(KindLabel(o.kind)))),
         Member(sp.field(OperationIdField), Str(sp.digest(o.id))),
         Member(sp.field(RecordedAtField), Str(sp.time(o.recordedAt))),
         Member(sp.field(RequestField), sp.operationRequest(o.request)),
         Member(sp.field(RequestDigestField), Str(sp.digest(o.requestDigest))),
         Member(sp.field(SequenceField), sp.number(o.sequence)),
         Member(sp.field(StateField), Str(sp.caption(OperationStateLabel(o.state))))]
        + Optional(sp.field(ReceiptField), ReceiptJson(sp, o.receipt)))
  }

  function InterruptionJson(sp: Spelling, i: Option<Interruption>): Json {
    if i.None? then Null
    else
      Obj([Member(sp.field(NextPhaseField), Str(sp.caption(PhaseLabel(i.value.nextPhase)))),
           Member(sp.field(RecoveryCommandField), Str(i.value.command)),
           Member(sp.field(SignalField), Str(sp.caption(SignalLabel(i.value.signal))))])
  }

  function EntriesJson(sp: Spelling, es: seq<Entry>): (r: seq<Json>)
    ensures |r| == |es| && forall i :: 0 <= i < |r| ==> r[i] == EntryJson(sp, es[i])
  {
    seq(|es|, i requires 0 <= i < |es| => EntryJson(sp, es[i]))
  }

  function OperationsJson(sp: Spelling, os: seq<Operation>): (r: seq<Json>)
    ensures |r| == |os| && forall i :: 0 <= i < |r| ==> r[i] == OperationJson(sp, os[i])
  {
    seq(|os|, i requires 0 <= i < |os| => OperationJson(sp, os[i]))
  }

  function BootstrapsJson(sp: Spelling, os: seq<BootstrapOperation>): (r: seq<Json>)
    ensures |r| == |os| && forall i :: 0 <= i < |r| ==> r[i] == BootstrapJson(sp, os[i])
  {
    seq(|os|, i requires 0 <= i < |os| => BootstrapJson(sp, os[i]))
  }

  /** The members that are in every journal. */
  function Always(sp: Spelling, b: JournalBody): seq<Member> {
    [Member(sp.field(AuthorityDigestField), Str(sp.digest(b.authority))),
     Member(sp.field(CurrentPhaseField), Str(sp.caption(PhaseLabel(b.currentPhase)))),
     Member(sp.field(EntriesField), Arr(EntriesJson(sp, b.entries))),
     Member(sp.field(GenesisNonceField), Str(sp.name(b.nonce))),
     Member(sp.field(InterruptionField), InterruptionJson(sp, b.interruption)),
     Member(sp.field(JournalDigestField), Str(sp.digest(JournalDigest(b)))),
     Member(sp.field(RequestField), sp.request(b.request)),
     Member(sp.field(RequestDigestField), Str(sp.digest(b.requestDigest))),
     Member(sp.field(StateField), Str(sp.caption(StateLabel(b.state)))),
     Member(sp.field(VersionField), Str(sp.caption(VersionLabel(b.version))))]
  }

  function Sometimes(sp: Spelling, b: JournalBody): seq<Member> {
    Optional(sp.field(BootstrapField), if b.bootstrap.None? then None else Some(sp.capsule(b.bootstrap.value)))
    + Optional(sp.field(BootstrapBindingField), if b.binding.None? then None else Some(sp.binding(b.binding.value)))
    + Optional(sp.field(BootstrapOperationsField),
               if b.bootstrapOperations.None? then None else Some(Arr(BootstrapsJson(sp, b.bootstrapOperations.value))))
    + Optional(sp.field(ExecutionField), if b.execution.None? then None else Some(sp.execution(b.execution.value)))
    + Optional(sp.field(OperationsField),
               if b.operations.None? then None else Some(Arr(OperationsJson(sp, b.operations.value))))
  }

  function Written(sp: Spelling, c: Content): Json {
    match c
    case JournalContent(b) => Obj(Always(sp, b) + Sometimes(sp, b))
    case PayloadContent(p) => sp.payload(p)
    case OperationRequestContent(r) => sp.operationRequest(r)
    case ExecutionContent(x) => sp.execution(x)
    case _ => Null
  }

  /** The gate: room for the whole, and no secret in any string of it. */
  function GateOf(sp: Spelling, size: Json -> bool, forbidden: Text -> bool): Gate {
    c => size(Written(sp, c)) && SecretFree(Written(sp, c), forbidden, SecretShaped)
  }

  /** No field name is forbidden, and no digest, time, label or name is shaped like a secret. */
  ghost predicate Harmless(sp: Spelling, forbidden: Text -> bool) {
    && (forall f :: !forbidden(sp.field(f))) && (forall l :: !SecretShaped(sp.caption(l)))
    && (forall d :: !SecretShaped(sp.digest(d))) && (forall t :: !SecretShaped(sp.time(t)))
    && (forall n :: !SecretShaped(sp.name(n))) && (forall n :: sp.number(n).Num?)
  }

  // ---- the secret half, one part at a time --------------------------------------------------------------

  predicate Clean(v: Json, forbidden: Text -> bool) { SecretFree(v, forbidden, SecretShaped) }

  predicate CleanMembers(ms: seq<Member>, forbidden: Text -> bool) {
    forall i :: 0 <= i < |ms| ==> !forbidden(ms[i].key) && Clean(ms[i].value, forbidden)
  }

  lemma {:induction false} CleanConcat(a: seq<Member>, b: seq<Member>, forbidden: Text -> bool)
    ensures CleanMembers(a + b, forbidden) <==> CleanMembers(a, forbidden) && CleanMembers(b, forbidden)
  {
    hide Clean;
    if CleanMembers(a + b, forbidden) {
      forall i | 0 <= i < |a| ensures !forbidden(a[i].key) && Clean(a[i].value, forbidden) {
        assert (a + b)[i] == a[i];
      }
      forall i | 0 <= i < |b| ensures !forbidden(b[i].key) && Clean(b[i].value, forbidden) {
        assert (a + b)[|a| + i] == b[i];
      }
    }
  }

  lemma {:induction false} CleanOptional(key: Text, v: Option<Json>, forbidden: Text -> bool)
    requires !forbidden(key)
    ensures CleanMembers(Optional(key, v), forbidden) <==> (v.Some? ==> Clean(v.value, forbidden))
  {
    hide Clean;
    if v.Some? { assert Optional(key, v)[0] == Member(key, v.value); }
  }

  lemma {:induction false} TextIsClean(t: Text, forbidden: Text -> bool)
    ensures Clean(Str(t), forbidden) <==> !SecretShaped(t)
  {
    hide SecretShaped;
  }

  /** The leaves are clean under a harmless spelling. */
  lemma {:induction false} LeavesAreClean(sp: Spelling, forbidden: Text -> bool)
    requires Harmless(sp, forbidden)
    ensures forall l :: Clean(Str(sp.caption(l)), forbidden)
    ensures forall d :: Clean(Str(sp.digest(d)), forbidden)
    ensures forall t :: Clean(Str(sp.time(t)), forbidden)
    ensures forall n :: Clean(Str(sp.name(n)), forbidden)
    ensures forall n :: Clean(sp.number(n), forbidden)
  {
    hide SecretShaped, Clean;
    forall l ensures Clean(Str(sp.caption(l)), forbidden) { TextIsClean(sp.caption(l), forbidden); }
    forall d ensures Clean(Str(sp.digest(d)), forbidden) { TextIsClean(sp.digest(d), forbidden); }
    forall t ensures Clean(Str(sp.time(t)), forbidden) { TextIsClean(sp.time(t), forbidden); }
    forall n ensures Clean(Str(sp.name(n)), forbidden) { TextIsClean(sp.name(n), forbidden); }
    forall n ensures Clean(sp.number(n), forbidden) { NumberIsClean(sp.number(n), forbidden); }
  }

  lemma {:induction false} NumberIsClean(v: Json, forbidden: Text -> bool)
    requires v.Num?
    ensures Clean(v, forbidden)
  {
  }

  lemma {:induction false} ObjectIsClean(ms: seq<Member>, forbidden: Text -> bool)
    ensures Clean(Obj(ms), forbidden) <==> CleanMembers(ms, forbidden)
  {
    if Clean(Obj(ms), forbidden) {
      forall i | 0 <= i < |ms| ensures !forbidden(ms[i].key) && Clean(ms[i].value, forbidden) {
        assert SecretFree(ms[i].value, forbidden, SecretShaped);
      }
    }
    if CleanMembers(ms, forbidden) {
      forall i | 0 <= i < |ms| ensures !forbidden(ms[i].key) && SecretFree(ms[i].value, forbidden, SecretShaped) {
        assert Clean(ms[i].value, forbidden);
      }
    }
  }

  lemma {:induction false} ArrayIsClean(items: seq<Json>, forbidden: Text -> bool)
    ensures Clean(Arr(items), forbidden) <==> forall i :: 0 <= i < |items| ==> Clean(items[i], forbidden)
  {
    if Clean(Arr(items), forbidden) {
      forall i | 0 <= i < |items| ensures Clean(items[i], forbidden) {
        assert SecretFree(items[i], forbidden, SecretShaped);
      }
    }
    if forall i :: 0 <= i < |items| ==> Clean(items[i], forbidden) {
      forall i | 0 <= i < |items| ensures SecretFree(items[i], forbidden, SecretShaped) {
        assert Clean(items[i], forbidden);
      }
    }
  }

  lemma {:induction false} EntryIsClean(sp: Spelling, e: Entry, forbidden: Text -> bool)
    requires Harmless(sp, forbidden)
    ensures Clean(EntryJson(sp, e), forbidden) <==> Clean(sp.payload(e.payload), forbidden)
  {
    hide Clean;
    LeavesAreClean(sp, forbidden);
    var ms := EntryJson(sp, e).members;
    ObjectIsClean(ms, forbidden);
    assert ms[0].value == sp.payload(e.payload);
  }

  /** What of an operation record the secret check can object to. */
  predicate CleanRecord(sp: Spelling, request: OperationRequest, receipt: Option<Name>, forbidden: Text -> bool) {
    Clean(sp.operationRequest(request), forbidden) && (receipt.Some? ==> Clean(sp.receipt(receipt.value), forbidden))
  }

  lemma {:induction false} OperationIsClean(sp: Spelling, o: Operation, forbidden: Text -> bool)
    requires Harmless(sp, forbidden)
    ensures Clean(OperationJson(sp, o), forbidden) <==> CleanRecord(sp, o.request, o.receipt, forbidden)
  {
    hide Clean, SecretShaped;
    LeavesAreClean(sp, forbidden);
    var optional := Optional(sp.field(TargetReceiptField), ReceiptJson(sp, o.receipt));
    var ms := OperationJson(sp, o).members;
    assert ms == ms[..7] + optional;
    ObjectIsClean(ms, forbidden);
    CleanConcat(ms[..7], optional, forbidden);
    CleanOptional(sp.field(TargetReceiptField), ReceiptJson(sp, o.receipt), forbidden);
    assert ms[..7][3].value == sp.operationRequest(o.request);
  }

  lemma {:induction false} BootstrapIsClean(sp: Spelling, o: BootstrapOperation, forbidden: Text -> bool)
    requires Harmless(sp, forbidden)
    ensures Clean(BootstrapJson(sp, o), forbidden) <==> CleanRecord(sp, o.request, o.receipt, forbidden)
  {
    hide Clean, SecretShaped;
    LeavesAreClean(sp, forbidden);
    var optional := Optional(sp.field(ReceiptField), ReceiptJson(sp, o.receipt));
    var ms := BootstrapJson(sp, o).members;
    assert ms == ms[..7] + optional;
    ObjectIsClean(ms, forbidden);
    CleanConcat(ms[..7], optional, forbidden);
    CleanOptional(sp.field(ReceiptField), ReceiptJson(sp, o.receipt), forbidden);
    assert ms[..7][3].value == sp.operationRequest(o.request);
  }

  lemma {:induction false} InterruptionIsClean(sp: Spelling, i: Option<Interruption>, forbidden: Text -> bool)
    requires Harmless(sp, forbidden)
    ensures Clean(InterruptionJson(sp, i), forbidden) <==> (i.Some? ==> !SecretShaped(i.value.command))
  {
    if i.Some? {
      CommandIsClean(sp, i.value, forbidden);
    }
  }

  lemma {:induction false} CommandIsClean(sp: Spelling, i: Interruption, forbidden: Text -> bool)
    requires Harmless(sp, forbidden)
    ensures Clean(InterruptionJson(sp, Some(i)), forbidden) <==> Clean(Str(i.command), forbidden)
  {
    hide Clean, SecretShaped;
    LeavesAreClean(sp, forbidden);
    var ms := InterruptionJson(sp, Some(i)).members;
    ObjectIsClean(ms, forbidden);
    assert ms[1].value == Str(i.command);
  }

  /** The parts of a journal that the secret check can object to at all: those whose text is not
      fixed by the journal itself. */
  predicate CleanParts(sp: Spelling, b: JournalBody, forbidden: Text -> bool) {
    && Clean(sp.request(b.request), forbidden)
    && (b.bootstrap.Some? ==> Clean(sp.capsule(b.bootstrap.value), forbidden))
    && (b.binding.Some? ==> Clean(sp.binding(b.binding.value), forbidden))
    && (b.execution.Some? ==> Clean(sp.execution(b.execution.value), forbidden))
    && (b.interruption.Some? ==> !SecretShaped(b.interruption.value.command))
    && CleanPayloads(sp, b.entries, forbidden) && CleanOperations(sp, Operations(b), forbidden)
    && CleanBootstraps(sp, BootstrapOperations(b), forbidden)
  }

  predicate CleanPayloads(sp: Spelling, es: seq<Entry>, forbidden: Text -> bool) {
    forall i :: 0 <= i < |es| ==> Clean(sp.payload(es[i].payload), forbidden)
  }

  predicate CleanOperations(sp: Spelling, os: seq<Operation>, forbidden: Text -> bool) {
    forall i :: 0 <= i < |os| ==> CleanRecord(sp, os[i].request, os[i].receipt, forbidden)
  }

  predicate CleanBootstraps(sp: Spelling, os: seq<BootstrapOperation>, forbidden: Text -> bool) {
    forall i :: 0 <= i < |os| ==> CleanRecord(sp, os[i].request, os[i].receipt, forbidden)
  }

  lemma {:induction false} EntriesAreClean(sp: Spelling, es: seq<Entry>, forbidden: Text -> bool)
    requires Harmless(sp, forbidden)
    ensures Clean(Arr(EntriesJson(sp, es)), forbidden) <==> CleanPayloads(sp, es, forbidden)
  {
    hide Clean, EntryJson, Harmless;
    ArrayIsClean(EntriesJson(sp, es), forbidden);
    forall i | 0 <= i < |es|
      ensures Clean(EntriesJson(sp, es)[i], forbidden) <==> Clean(sp.payload(es[i].payload), forbidden)
    {
      EntryIsClean(sp, es[i], forbidden);
    }
  }

  lemma {:induction false} OperationsAreClean(sp: Spelling, os: seq<Operation>, forbidden: Text -> bool)
    requires Harmless(sp, forbidden)
    ensures Clean(Arr(OperationsJson(sp, os)), forbidden) <==> CleanOperations(sp, os, forbidden)
  {
    hide Clean, OperationJson, Harmless, CleanRecord;
    ArrayIsClean(OperationsJson(sp, os), forbidden);
    forall i | 0 <= i < |os|
      ensures Clean(OperationsJson(sp, os)[i], forbidden) <==> CleanRecord(sp, os[i].request, os[i].receipt, forbidden)
    {
      OperationIsClean(sp, os[i], forbidden);
    }
  }

  lemma {:induction false} BootstrapsAreClean(sp: Spelling, os: seq<BootstrapOperation>, forbidden: Text -> bool)
    requires Harmless(sp, forbidden)
    ensures Clean(Arr(BootstrapsJson(sp, os)), forbidden) <==> CleanBootstraps(sp, os, forbidden)
  {
    hide Clean, BootstrapJson, Harmless, CleanRecord;
    ArrayIsClean(BootstrapsJson(sp, os), forbidden);
    forall i | 0 <= i < |os|
      ensures Clean(BootstrapsJson(sp, os)[i], forbidden) <==> CleanRecord(sp, os[i].request, os[i].receipt, forbidden)
    {
      BootstrapIsClean(sp, os[i], forbidden);
    }
  }

  lemma {:induction false} AlwaysIsClean(sp: Spelling, b: JournalBody, forbidden: Text -> bool)
    requires Harmless(sp, forbidden)
    ensures CleanMembers(Always(sp, b), forbidden) <==>
      && Clean(sp.request(b.request), forbidden) && CleanPayloads(sp, b.entries, forbidden)
      && (b.interruption.Some? ==> !SecretShaped(b.interruption.value.command))
  {
    hide Clean, InterruptionJson, EntriesJson, CleanPayloads, SecretShaped, JournalDigest;
    LeavesAreClean(sp, forbidden);
    EntriesAreClean(sp, b.entries, forbidden);
    InterruptionIsClean(sp, b.interruption, forbidden);
    var ms := Always(sp, b);
    assert ms[2].value == Arr(EntriesJson(sp, b.entries)) && ms[4].value == InterruptionJson(sp, b.interruption);
    assert ms[6].value == sp.request(b.request);
  }

  lemma {:induction false} SometimesIsClean(sp: Spelling, b: JournalBody, forbidden: Text -> bool)
    requires Harmless(sp, forbidden)
    ensures CleanMembers(Sometimes(sp, b), forbidden) <==>
      && (b.bootstrap.Some? ==> Clean(sp.capsule(b.bootstrap.value), forbidden))
      && (b.binding.Some? ==> Clean(sp.binding(b.binding.value), forbidden))
      && (b.execution.Some? ==> Clean(sp.execution(b.execution.value), forbidden))
      && CleanOperations(sp, Operations(b), forbidden) && CleanBootstraps(sp, BootstrapOperations(b), forbidden)
  {
    hide Clean, CleanMembers, CleanRecord, OperationsJson, BootstrapsJson, Optional;
    var capsule := if b.bootstrap.None? then None else Some(sp.capsule(b.bootstrap.value));
    var binding := if b.binding.None? then None else Some(sp.binding(b.binding.value));
    var bootstraps :=
      if b.bootstrapOperations.None? then None else Some(Arr(BootstrapsJson(sp, b.bootstrapOperations.value)));
    var execution := if b.execution.None? then None else Some(sp.execution(b.execution.value));
    var operations := if b.operations.None? then None else Some(Arr(OperationsJson(sp, b.operations.value)));
    var m1, m2 := Optional(sp.field(BootstrapField), capsule), Optional(sp.field(BootstrapBindingField), binding);
    var m3 := Optional(sp.field(BootstrapOperationsField), bootstraps);
    var m4, m5 := Optional(sp.field(ExecutionField), execution), Optional(sp.field(OperationsField), operations);
    CleanOptional(sp.field(BootstrapField), capsule, forbidden);
    CleanOptional(sp.field(BootstrapBindingField), binding, forbidden);
    CleanOptional(sp.field(BootstrapOperationsField), bootstraps, forbidden);
    CleanOptional(sp.field(ExecutionField), execution, forbidden);
    CleanOptional(sp.field(OperationsField), operations, forbidden);
    CleanConcat(m1, m2, forbidden);
    CleanConcat(m1 + m2, m3, forbidden);
    CleanConcat(m1 + m2 + m3, m4, forbidden);
    CleanConcat(m1 + m2 + m3 + m4, m5, forbidden);
    OperationsAreClean(sp, Operations(b), forbidden);
    BootstrapsAreClean(sp, BootstrapOperations(b), forbidden);
  }

  /** The secret half of the gate looks at a journal part by part. */
  lemma {:induction false} SecretHalf(sp: Spelling, b: JournalBody, forbidden: Text -> bool)
    requires Harmless(sp, forbidden)
    ensures Clean(Written(sp, JournalContent(b)), forbidden) <==> CleanParts(sp, b, forbidden)
  {
    hide Clean, CleanMembers, Always, Sometimes, CleanPayloads, CleanOperations, CleanBootstraps, SecretShaped;
    ObjectIsClean(Always(sp, b) + Sometimes(sp, b), forbidden);
    CleanConcat(Always(sp, b), Sometimes(sp, b), forbidden);
    AlwaysIsClean(sp, b, forbidden);
    SometimesIsClean(sp, b, forbidden);
  }

  // ---- which half can refuse a transition ------------------------------------------------------------------

  function JournalFits(sp: Spelling, size: Json -> bool, b: JournalBody): bool { size(Written(sp, JournalContent(b))) }

  lemma {:induction false} AcceptedIsClean(sp: Spelling, size: Json -> bool, forbidden: Text -> bool, j: Journal)
    requires Harmless(sp, forbidden) && Valid(GateOf(sp, size, forbidden), j)
    ensures CleanParts(sp, j.body, forbidden)
  {
    hide WellFormed, ClockOk, JournalDigest, CleanParts, Harmless;
    SecretHalf(sp, j.body, forbidden);
    assert GateOf(sp, size, forbidden)(JournalContent(j.body));
  }

  lemma {:induction false} GateOnJournal(sp: Spelling, size: Json -> bool, forbidden: Text -> bool, b: JournalBody)
    requires Harmless(sp, forbidden)
    ensures GateOf(sp, size, forbidden)(JournalContent(b)) <==> JournalFits(sp, size, b) && CleanParts(sp, b, forbidden)
  {
    hide CleanParts, Harmless;
    SecretHalf(sp, b, forbidden);
  }

  /** The next phase with a payload that was checked: only a clock that went back or the size of the
      whole journal can refuse it, never a secret. */
  lemma {:induction false} AppendFailsOnlyForSize(sp: Spelling, size: Json -> bool, forbidden: Text -> bool, j: Journal,
                                                  phase: Phase, payload: Payload, at: int)
    requires Harmless(sp, forbidden) && Valid(GateOf(sp, size, forbidden), j)
    requires GateOf(sp, size, forbidden)(PayloadContent(payload)) && payload.runId == j.body.request.runId
    requires NextPhase(j.body.currentPhase) == Some(phase)
    ensures |j.body.entries| >= 1
    ensures Append(GateOf(sp, size, forbidden), j, phase, payload, at).Ok? <==>
      && j.body.entries[|j.body.entries| - 1].recordedAt <= at
      && JournalFits(sp, size, Appended(j.body, phase, payload, at))
  {
    hide Valid, Harmless, Append, JournalFits, CleanRecord, SecretShaped;
    var gate, n := GateOf(sp, size, forbidden), Appended(j.body, phase, payload, at);
    NotEmpty(gate, j);
    AppendSucceedsExactly(gate, j, phase, payload, at);
    AcceptedIsClean(sp, size, forbidden, j);
    GateOnJournal(sp, size, forbidden, n);
    PayloadIsClean(sp, size, forbidden, payload);
    forall i | 0 <= i < |n.entries| ensures Clean(sp.payload(n.entries[i].payload), forbidden) {
      if i < |j.body.entries| { assert n.entries[i] == j.body.entries[i]; }
    }
    assert CleanParts(sp, n, forbidden);
  }

  lemma {:induction false} NotEmpty(gate: Gate, j: Journal)
    requires Valid(gate, j)
    ensures |j.body.entries| >= 1
  {
    hide GateOpen, Bound, OperationsOk, ClockOk, StateOk, EntryOk, JournalDigest;
  }

  lemma {:induction false} PayloadIsClean(sp: Spelling, size: Json -> bool, forbidden: Text -> bool, payload: Payload)
    requires GateOf(sp, size, forbidden)(PayloadContent(payload))
    ensures Clean(sp.payload(payload), forbidden)
  {
    GateAt(sp, size, forbidden, PayloadContent(payload));
  }

  lemma {:induction false} GateAt(sp: Spelling, size: Json -> bool, forbidden: Text -> bool, c: Content)
    ensures GateOf(sp, size, forbidden)(c) <==> size(Written(sp, c)) && Clean(Written(sp, c), forbidden)
  {
    hide SecretShaped, SecretFree, Written;
  }

  /** A mark is refused exactly for a command that is too long, for one that is shaped like a secret,
      or for the size of the whole journal. */
  lemma {:induction false} MarkFailsExactly(sp: Spelling, size: Json -> bool, forbidden: Text -> bool, j: Journal,
                                            command: Contracts.Handle, signal: Signal)
    requires Harmless(sp, forbidden) && Valid(GateOf(sp, size, forbidden), j) && j.body.currentPhase != Completed
    ensures NextPhase(j.body.currentPhase).Some?
    ensures MarkRecoverable(GateOf(sp, size, forbidden), j, command, signal).Ok? <==>
      && 1 <= |command| <= MAX_COMMAND && !SecretShaped(command)
      && JournalFits(sp, size, Interrupted(j.body, NextPhase(j.body.currentPhase).value, command, signal))
  {
    hide Valid, Harmless, MarkRecoverable, JournalFits, CleanRecord, SecretShaped, CleanPayloads, CleanOperations,
         CleanBootstraps;
    var gate := GateOf(sp, size, forbidden);
    MarkSucceedsExactly(gate, j, command, signal);
    var n := Interrupted(j.body, NextPhase(j.body.currentPhase).value, command, signal);
    AcceptedIsClean(sp, size, forbidden, j);
    GateOnJournal(sp, size, forbidden, n);
    assert CleanParts(sp, n, forbidden) <==> !SecretShaped(command);
  }

  // ---- a path that makes the command a secret -----------------------------------------------------------------

  /** A path without quotes that is shaped like a secret makes the command one. */
  lemma {:induction false} SecretPathMakesSecretCommand(path: Text, runId: Text, digest: Text)
    requires RecoveryCommand.NormalPath(path) && SecretShaped(path)
    requires forall i :: 0 <= i < |path| ==> path[i] != RecoveryCommand.QUOTE_1
    ensures SecretShaped(RecoveryCommand.Command(path, runId, digest))
  {
    hide BearerAt, AssignedAt, PrivateKeyAt, ApiKeyAt;
    var i :| 0 <= i < |path| && SecretAt(path, i);
    assert i > 0 by { NotAtTheSlash(path); }
    RecoveryCommand.QuoteFree(path);
    var before, after := RecoveryCommand.AroundPath(path, runId, digest);
    EmbeddedSecret(before, path, after, i);
  }

  lemma {:induction false} NotAtTheSlash(path: Text)
    requires path != [] && path[0] == SLASH
    ensures !SecretAt(path, 0)
  {
    StartUnits(path, 0, BEARER);
    StartUnits(path, 0, PASSWORD);
    StartUnits(path, 0, TOKEN);
    StartUnits(path, 0, BEGIN);
    StartUnits(path, 0, SK);
  }

  /** So no journal can be marked recoverable under such a path, however short. */
  lemma {:induction false} SecretPathCannotBeMarked(sp: Spelling, size: Json -> bool, forbidden: Text -> bool,
                                                    j: Journal,
                                                    path: Text, runId: Text, digest: Text, signal: Signal)
    requires Harmless(sp, forbidden) && Valid(GateOf(sp, size, forbidden), j) && j.body.currentPhase != Completed
    requires RecoveryCommand.NormalPath(path) && SecretShaped(path)
    requires forall i :: 0 <= i < |path| ==> path[i] != RecoveryCommand.QUOTE_1
    ensures MarkRecoverable(GateOf(sp, size, forbidden), j, RecoveryCommand.Command(path, runId, digest), signal).Err?
  {
    hide Valid, Harmless, MarkRecoverable, SecretShaped, RecoveryCommand.Command, RecoveryCommand.NormalPath, GateOf;
    SecretPathMakesSecretCommand(path, runId, digest);
    MarkFailsExactly(sp, size, forbidden, j, RecoveryCommand.Command(path, runId, digest), signal);
  }

  // "/srv/token=1/j.json"
  const TOKEN_PATH: Text := [47, 115, 114, 118, 47, 116, 111, 107, 101, 110, 61, 49, 47, 106, 46, 106, 115, 111, 110]

  /** This path is one that the schema admits, and its command is short enough. */
  lemma {:induction false} TokenPathIsAdmitted(runId: Text, digest: Text)
    requires RunIdText(runId) && RecoveryCommand.DigestText(digest)
    ensures RecoveryCommand.NormalPath(TOKEN_PATH) && |TOKEN_PATH| <= 4096 && SecretShaped(TOKEN_PATH)
    ensures forall i :: 0 <= i < |TOKEN_PATH| ==> TOKEN_PATH[i] != RecoveryCommand.QUOTE_1
    ensures |RecoveryCommand.Command(TOKEN_PATH, runId, digest)| <= MAX_COMMAND
  {
    hide RecoveryCommand.Command, RecoveryCommand.DigestText, RecoveryCommand.NormalPath, SecretShaped, RunIdText;
    TokenPathIsNormal();
    TokenPathIsSecret();
    RecoveryCommand.QuoteFreeFits(TOKEN_PATH, runId, digest);
  }

  lemma {:induction false} TokenPathIsSecret()
    ensures SecretShaped(TOKEN_PATH)
  {
    var t := TOKEN_PATH;
    assert BoundaryAt(t, 5);
    assert t[5..10] == TOKEN && StartsAt(t, 5, TOKEN);
    assert SpacesBetween(t, 10, 10) && t[10] == EQUALS;
    assert AssignedAt(t, 5, TOKEN);
    assert SecretAt(t, 5);
  }

  lemma {:induction false} TokenPathIsNormal()
    ensures RecoveryCommand.NormalPath(TOKEN_PATH)
  {
    hide Parts;
    var a, b, c := TOKEN_PATH[1..4], TOKEN_PATH[5..12], TOKEN_PATH[13..];
    assert a == [115, 114, 118] && b == [116, 111, 107, 101, 110, 61, 49] && c == [106, 46, 106, 115, 111, 110];
    assert TOKEN_PATH == [] + [SLASH] + (a + [SLASH] + (b + [SLASH] + c));
    FourParts(a, b, c);
  }

  lemma {:induction false} FourParts(a: Text, b: Text, c: Text)
    requires forall i :: 0 <= i < |a| ==> a[i] != SLASH
    requires forall i :: 0 <= i < |b| ==> b[i] != SLASH
    requires forall i :: 0 <= i < |c| ==> c[i] != SLASH
    ensures Parts([] + [SLASH] + (a + [SLASH] + (b + [SLASH] + c))) == [[], a, b, c]
  {
    hide Parts;
    NoSlash(c);
    PartsSplit(b, c);
    PartsSplit(a, b + [SLASH] + c);
    PartsSplit([], a + [SLASH] + (b + [SLASH] + c));
  }

  lemma {:induction false} NoSlash(t: Text)
    requires forall i :: 0 <= i < |t| ==> t[i] != SLASH
    ensures Parts(t) == [t]
  {
    if t != [] {
      NoSlash(t[1..]);
      assert [t[0]] + t[1..] == t;
    }
  }

  lemma {:induction false} PartsSplit(a: Text, rest: Text)
    requires forall i :: 0 <= i < |a| ==> a[i] != SLASH
    ensures Parts(a + [SLASH] + rest) == [a] + Parts(rest)
  {
    var t := a + [SLASH] + rest;
    if a == [] {
      assert t[1..] == rest;
    } else {
      assert t[1..] == a[1..] + [SLASH] + rest;
      PartsSplit(a[1..], rest);
      assert [a[0]] + a[1..] == a;
      assert Parts(t[1..])[1..] == Parts(rest);
    }
  }
}
