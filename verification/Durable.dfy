/** How the durable journal and the executor's own copy stay in step while ports
    write operation records into the durable one. */
module Durable {
  import opened Wrappers
  import opened Contracts
  import opened PhaseJournal
  import opened JournalRuns
  import opened Receipts
  import opened Cleanup
  import opened Chain
  import opened Steps

  // ---- what ports write between commits -------------------------------------------------------

  predicate IsRecord(a: Action) {
    a.IntentAction? || a.ObserveAction? || a.BootstrapIntentAction? || a.BootstrapObserveAction?
  }

  /** The journal after a port has written its operation records; a refused record
      leaves it as it is. */
  function Recorded(gate: Gate, j: Journal, actions: seq<Action>): Journal
    decreases |actions|
  {
    if actions == [] then j
    else Recorded(gate, if IsRecord(actions[0]) then Step(gate, j, actions[0]) else j, actions[1..])
  }

  /** Equal up to the operation records. */
  predicate SameLifecycle(a: JournalBody, b: JournalBody) {
    b == a.(operations := b.operations, bootstrapOperations := b.bootstrapOperations)
  }

  lemma {:induction false} RecordKeepsLifecycle(gate: Gate, j: Journal, a: Action)
    requires IsRecord(a)
    ensures SameLifecycle(j.body, Step(gate, j, a).body)
  {
    hide GateOpen, WellFormed, ClockOk, JournalDigest;
  }

  lemma {:induction false} RecordedKeeps(gate: Gate, j: Journal, actions: seq<Action>)
    requires Valid(gate, j) && Disciplined(j.body)
    ensures
      var n := Recorded(gate, j, actions);
      Valid(gate, n) && Disciplined(n.body) && SameLifecycle(j.body, n.body) && Extends(j.body, n.body)
    decreases |actions|
  {
    hide Valid, Disciplined, Extends, Step;
    if actions == [] {
      ExtendsReflexive(j.body);
    } else {
      var next := if IsRecord(actions[0]) then Step(gate, j, actions[0]) else j;
      if IsRecord(actions[0]) {
        StepKeeps(gate, j, actions[0]);
        RecordKeepsLifecycle(gate, j, actions[0]);
      } else {
        ExtendsReflexive(j.body);
      }
      RecordedKeeps(gate, next, actions[1..]);
      ExtendsTransitive(j.body, next.body, Recorded(gate, j, actions).body);
    }
  }

  lemma {:induction false} SameLifecycleTransitive(a: JournalBody, b: JournalBody, c: JournalBody)
    requires SameLifecycle(a, b) && SameLifecycle(b, c)
    ensures SameLifecycle(a, c)
  {
  }

  // ---- appending to both copies -----------------------------------------------------------------

  /** An append of the next phase that succeeds is exactly the extended journal. */
  lemma {:induction false} AppendShape(gate: Gate, j: Journal, phase: Phase, payload: Payload, at: int)
    requires Valid(gate, j) && NextPhase(j.body.currentPhase) == Some(phase)
    requires Append(gate, j, phase, payload, at).Ok?
    ensures
      var n := Append(gate, j, phase, payload, at).value;
      Valid(gate, n) && n.body == Appended(j.body, phase, payload, at) && payload.runId == j.body.request.runId
  {
    hide GateOpen, WellFormed, ClockOk, JournalDigest;
    IndexOfPhaseAt(Index(j.body.currentPhase) + 1);
  }

  /** An append that succeeded was not before the last entry. */
  lemma {:induction false} AppendedOnTime(gate: Gate, j: Journal, phase: Phase, payload: Payload, at: int)
    requires Valid(gate, j) && NextPhase(j.body.currentPhase) == Some(phase)
    requires Append(gate, j, phase, payload, at).Ok?
    ensures |j.body.entries| >= 1 && j.body.entries[|j.body.entries| - 1].recordedAt <= at
  {
    hide GateOpen, Bound, OperationsOk, StateOk, EntryOk, JournalDigest, Append;
    AppendShape(gate, j, phase, payload, at);
    var n := Appended(j.body, phase, payload, at);
    assert n.entries[|j.body.entries| - 1] == j.body.entries[|j.body.entries| - 1];
    assert n.entries[|j.body.entries|].recordedAt == at;
  }

  /** Re-applying only the newest entry to the durable copy keeps both in step. */
  lemma {:induction false} AppendedStayInStep(a: JournalBody, b: JournalBody, phase: Phase, payload: Payload, at: int)
    requires SameLifecycle(a, b)
    ensures SameLifecycle(Appended(a, phase, payload, at), Appended(b, phase, payload, at))
    ensures
      var n := Appended(a, phase, payload, at);
      |n.entries| == |a.entries| + 1 && n.entries[|n.entries| - 1] == NewEntry(phase, payload, at)
  {
  }

  /** When the gate admits what is appended and what comes of it, only a clock that went back
      refuses an append, to either copy. */
  lemma {:induction false} AdmittedAppends(gate: Gate, a: Journal, b: Journal, payload: Payload, at: int)
    requires Valid(gate, a) && Valid(gate, b) && SameLifecycle(a.body, b.body) && |a.body.entries| <= 16
    requires payload.runId == a.body.request.runId && gate(PayloadContent(payload))
    requires gate(JournalContent(Appended(a.body, PhaseAt(|a.body.entries|), payload, at)))
    requires gate(JournalContent(Appended(b.body, PhaseAt(|a.body.entries|), payload, at)))
    ensures
      var phase := PhaseAt(|a.body.entries|);
      var onTime := |a.body.entries| >= 1 && a.body.entries[|a.body.entries| - 1].recordedAt <= at;
      && (Append(gate, a, phase, payload, at).Ok? <==> onTime)
      && (Append(gate, b, phase, payload, at).Ok? <==> onTime)
  {
    hide Valid, Append, Appended, NextPhase, PhaseAt;
    var phase := PhaseAt(|a.body.entries|);
    NextPhaseOfEntries(gate, a);
    NextPhaseOfEntries(gate, b);
    EntriesOfValid(gate, a);
    AppendSucceedsExactly(gate, a, phase, payload, at);
    AppendSucceedsExactly(gate, b, phase, payload, at);
  }

  lemma {:induction false} NextPhaseOfEntries(gate: Gate, j: Journal)
    requires Valid(gate, j) && |j.body.entries| <= 16
    ensures NextPhase(j.body.currentPhase) == Some(PhaseAt(|j.body.entries|))
    ensures j.body.currentPhase == PhaseAt(|j.body.entries| - 1)
  {
    hide GateOpen, Bound, OperationsOk, ClockOk, StateOk, EntryOk, JournalDigest;
    EntriesMatchPhase(j.body);
    PhaseAtIndex(j.body.currentPhase);
  }

  lemma {:induction false} EntriesOfValid(gate: Gate, j: Journal)
    requires Valid(gate, j)
    ensures 1 <= |j.body.entries| <= 17
    ensures |j.body.entries| == Index(j.body.currentPhase) + 1
    ensures |j.body.entries| == 17 <==> j.body.currentPhase == Completed
    ensures j.body.requestDigest == RequestDigest(j.body.request)
  {
    hide GateOpen, Bound, OperationsOk, ClockOk, StateOk, EntryOk, JournalDigest;
    EntriesMatchPhase(j.body);
  }

  // ---- growing a chained journal --------------------------------------------------------------------

  lemma {:induction false} PayloadsAppend(es: seq<Entry>, e: Entry)
    ensures Payloads(es + [e]) == Payloads(es) + [e.payload]
  {
    assert (es + [e])[..|es|] == es;
  }

  /** The payload with this fact may follow: it links to the payloads before it, and a
      terminal receipt is the one the entries determine. */
  predicate MayFollow(cfg: Configuration, b: JournalBody, fact: Fact) {
    && Linked(cfg, b.request, Payloads(b.entries) + [Payload(b.request.runId, fact)])
    && (|b.entries| == 16 ==>
          && Kinds(Payloads(b.entries)) && fact.CompletedFact?
          && fact.terminalReceipt == TerminalOf(cfg, b.request, b.entries))
  }

  lemma {:induction false} ChainedGrows(cfg: Configuration, b: JournalBody, phase: Phase, fact: Fact, at: int)
    requires Chained(cfg, b) && |b.entries| <= 16 && MayFollow(cfg, b, fact)
    ensures
      var p := Payload(b.request.runId, fact);
      && Chained(cfg, Appended(b, phase, p, at))
      && Payloads(Appended(b, phase, p, at).entries) == Payloads(b.entries) + [p]
  {
    hide Linked, TerminalOf, Kinds, Payloads;
    var p := Payload(b.request.runId, fact);
    var n := Appended(b, phase, p, at);
    PayloadsAppend(b.entries, NewEntry(phase, p, at));
    if |n.entries| == 17 { assert n.entries[..16] == b.entries; }
  }

  lemma {:induction false} ChainedIsLinked(cfg: Configuration, b: JournalBody)
    requires Chained(cfg, b)
    ensures Linked(cfg, b.request, Payloads(b.entries)) && Kinds(Payloads(b.entries))
  {
    LinkedKinds(cfg, b.request, Payloads(b.entries));
  }

  lemma {:induction false} SameLifecycleSharesChain(cfg: Configuration, a: JournalBody, b: JournalBody)
    requires SameLifecycle(a, b)
    ensures Chained(cfg, a) <==> Chained(cfg, b)
    ensures a.entries == b.entries && a.request == b.request && a.currentPhase == b.currentPhase
  {
    hide Linked, TerminalOf, Payloads;
  }

  /** A chain may grow by the fact that follows it when the fact links. */
  lemma {:induction false} FactFollows(cfg: Configuration, b: JournalBody, fact: Fact)
    requires Chained(cfg, b) && |b.entries| <= 15
    requires
      var ps := Payloads(b.entries);
      var p := Payload(b.request.runId, fact);
      Kinds(ps) && Kinds(ps + [p]) && Link(cfg, b.request, ps + [p], |ps|)
    ensures MayFollow(cfg, b, fact)
  {
    hide Link, Payloads;
    var ps := Payloads(b.entries);
    var p := Payload(b.request.runId, fact);
    assert (ps + [p])[|ps|] == p;
    LinkedGrows(cfg, b.request, ps, p);
  }

  lemma {:induction false} RunningFollows(cfg: Configuration, b: JournalBody)
    requires Chained(cfg, b) && |b.entries| == 10 && TickInRange(cfg)
    requires Kinds(Payloads(b.entries))
    ensures MayFollow(cfg, b, RunningNext(b.request, Payloads(b.entries)))
  {
    var ps := Payloads(b.entries);
    var p := Payload(b.request.runId, RunningNext(b.request, ps));
    var qs := ps + [p];
    assert qs[10] == p && qs[8] == ps[8] && qs[9] == ps[9];
    assert Kinds(qs);
    FactFollows(cfg, b, p.fact);
  }

  lemma {:induction false} CleanedFollows(cfg: Configuration, b: JournalBody,
                                          xs: seq<Receipt<CleanupOperationBody>>)
    requires Chained(cfg, b) && |b.entries| == 15 && Kinds(Payloads(b.entries))
    requires MayClean(b.request, Payloads(b.entries)) && OwnershipOf(Payloads(b.entries)).Some?
    requires |xs| == 5 && OperationsFit(b.request, OwnershipOf(Payloads(b.entries)).value, xs)
    ensures MayFollow(cfg, b, CleanedBy(b.request, OwnershipOf(Payloads(b.entries)).value, xs))
  {
    hide Chained, MayClean, OperationsFit, OwnershipOf, Link, CleanedBy, Linked, Kinds, Payloads;
    var ps := Payloads(b.entries);
    CleanedLinks(cfg, b.request, ps, xs);
    FactFollows(cfg, b, CleanedBy(b.request, OwnershipOf(ps).value, xs));
  }

  lemma {:induction false} CleanedLinks(cfg: Configuration, r: Request, ps: seq<Payload>,
                                        xs: seq<Receipt<CleanupOperationBody>>)
    requires Kinds(ps) && |ps| == 15 && MayClean(r, ps) && OwnershipOf(ps).Some?
    requires |xs| == 5 && OperationsFit(r, OwnershipOf(ps).value, xs)
    ensures
      var p := Payload(r.runId, CleanedBy(r, OwnershipOf(ps).value, xs));
      Kinds(ps + [p]) && Link(cfg, r, ps + [p], 15)
  {
    hide EvidenceCorrelates, OwnershipChecks, OperationsFit, OwnershipOf, PreparationFits, AttestationFits;
    var p := Payload(r.runId, CleanedBy(r, OwnershipOf(ps).value, xs));
    KindsGrow(ps, p);
    assert (ps + [p])[15] == p;
    ChecksReadOnlyEarlierPayloads(r, ps, p);
  }

  lemma {:induction false} ChecksReadOnlyEarlierPayloads(r: Request, ps: seq<Payload>, p: Payload)
    requires Kinds(ps) && Kinds(ps + [p]) && |ps| == 15
    ensures EvidenceCorrelates(r, ps + [p]) <==> EvidenceCorrelates(r, ps)
    ensures OwnershipChecks(r, ps + [p]) <==> OwnershipChecks(r, ps)
    ensures OwnershipOf(ps + [p]) == OwnershipOf(ps)
  {
    assert forall k :: 0 <= k < 15 ==> (ps + [p])[k] == ps[k];
  }

  lemma {:induction false} TerminalFollows(cfg: Configuration, b: JournalBody)
    requires Chained(cfg, b) && |b.entries| == 16 && Kinds(Payloads(b.entries))
    ensures
      var x := TerminalOf(cfg, b.request, b.entries);
      MayFollow(cfg, b, CompletedFact(x, x.digest))
  {
    hide TerminalOf, Link, Kinds, Payloads;
    var ps := Payloads(b.entries);
    var x := TerminalOf(cfg, b.request, b.entries);
    var p := Payload(b.request.runId, CompletedFact(x, x.digest));
    TerminalLinks(cfg, b.request, ps, x);
    LinkedGrows(cfg, b.request, ps, p);
  }

  lemma {:induction false} TerminalLinks(cfg: Configuration, r: Request, ps: seq<Payload>,
                                         x: Receipt<TerminalReceiptBody>)
    requires Kinds(ps) && |ps| == 16
    ensures
      var p := Payload(r.runId, CompletedFact(x, x.digest));
      KindAt(16, p.fact) && Kinds(ps + [p]) && Link(cfg, r, ps + [p], 16)
  {
    hide PreparationFits, UpFits, AttestationFits, EvidenceCorrelates, OwnershipChecks,
      OperationsFit, OwnershipOf, CleanupOf;
    var p := Payload(r.runId, CompletedFact(x, x.digest));
    KindsGrow(ps, p);
    assert (ps + [p])[16] == p;
  }

  // ---- one append seen from outside -------------------------------------------------------------------

  lemma {:induction false} GenesisIsChained(cfg: Configuration, gate: Gate, settled: PortCall -> Reply, j: Journal)
    requires Valid(gate, j) && |j.body.entries| == 1 && j.body.entries[0].payload == First(j.body.request)
    ensures Chained(cfg, j.body) && Kinds(Payloads(j.body.entries))
    ensures Faithful(cfg, j.body.request, settled, Payloads(j.body.entries))
  {
    hide Valid;
    var ps := Payloads(j.body.entries);
    assert ps == [First(j.body.request)];
    assert KindAt(0, ps[0].fact);
  }

  lemma {:induction false} PhaseMoves(p: Phase, q: Phase)
    requires NextPhase(p) == Some(q)
    ensures q != p
  {
    IndexOfPhaseAt(Index(p) + 1);
  }

  /** What one successful append of a payload that may follow leaves of the journal. */
  lemma {:induction false} GrownKeeps(cfg: Configuration, gate: Gate, j: Journal, fact: Fact, at: int,
                                      log: seq<Logged>)
    requires Valid(gate, j) && Disciplined(j.body) && Chained(cfg, j.body) && |j.body.entries| <= 16
    requires MayFollow(cfg, j.body, fact) && Kinds(Payloads(j.body.entries))
    requires AllAllowed(cfg, j.body.request, Payloads(j.body.entries), log)
    requires Append(gate, j, PhaseAt(|j.body.entries|), Payload(j.body.request.runId, fact), at).Ok?
    ensures
      var p := Payload(j.body.request.runId, fact);
      var n := Append(gate, j, PhaseAt(|j.body.entries|), p, at).value;
      && Valid(gate, n) && Disciplined(n.body) && Extends(j.body, n.body) && Chained(cfg, n.body)
      && n.body == Appended(j.body, PhaseAt(|j.body.entries|), p, at) && n.body.request == j.body.request
      && |n.body.entries| == |j.body.entries| + 1
      && Payloads(n.body.entries) == Payloads(j.body.entries) + [p] && Kinds(Payloads(n.body.entries))
      && AllAllowed(cfg, j.body.request, Payloads(n.body.entries), log)
  {
    hide Valid, Disciplined, Extends, Chained, Append, MayFollow, Payloads, Kinds, Allowed, PhaseAt, NextPhase;
    var phase := PhaseAt(|j.body.entries|);
    var p := Payload(j.body.request.runId, fact);
    var n := Append(gate, j, phase, p, at).value;
    NextPhaseOfEntries(gate, j);
    AppendShape(gate, j, phase, p, at);
    AppendKeeps(gate, j, phase, p, at);
    ChainedGrows(cfg, j.body, phase, fact, at);
    ChainedIsLinked(cfg, n.body);
    var ps, qs := Payloads(j.body.entries), Payloads(n.body.entries);
    forall k | 0 <= k < |log| ensures Allowed(cfg, j.body.request, qs, log[k]) {
      AllowedGrows(cfg, j.body.request, ps, qs, log[k]);
    }
  }

  /** Marking changes neither the chain nor anything a run counts. */
  lemma {:induction false} MarkedIsChained(cfg: Configuration, gate: Gate, j: Journal,
                                           command: Contracts.Handle, signal: Signal)
    requires Valid(gate, j) && Chained(cfg, j.body) && MarkRecoverable(gate, j, command, signal).Ok?
    ensures
      var n := MarkRecoverable(gate, j, command, signal).value;
      && Chained(cfg, n.body) && n.body.entries == j.body.entries && n.body.request == j.body.request
      && n.body.currentPhase == j.body.currentPhase && n.body.state == State.Recoverable
      && n.body.authority == j.body.authority && NextPhase(n.body.currentPhase).Some?
      && n.body.interruption == Some(Interruption(NextPhase(n.body.currentPhase).value, command, signal))
  {
    hide GateOpen, WellFormed, ClockOk, JournalDigest, Linked, TerminalOf, Payloads;
  }

  lemma {:induction false} MarkedBody(gate: Gate, j: Journal, command: Contracts.Handle, signal: Signal)
    requires MarkRecoverable(gate, j, command, signal).Ok?
    ensures
      var n := MarkRecoverable(gate, j, command, signal).value;
      && n.body.interruption.Some?
      && n.body == j.body.(interruption := Some(Interruption(n.body.interruption.value.nextPhase, command, signal)),
                           state := State.Recoverable)
  {
    hide GateOpen, WellFormed, ClockOk, JournalDigest;
  }

  // ---- the cleanup loop --------------------------------------------------------------------------------

  lemma {:induction false} CleanedNextFact(cfg: Configuration, r: Request, settled: PortCall -> Reply,
                                           ps: seq<Payload>)
    requires Kinds(ps) && |ps| == 15
    ensures NextFact(cfg, r, settled, ps) ==
      if !MayClean(r, ps) then None
      else
        var xs := SettledCleanup(r, OwnershipOf(ps).value, settled, 5);
        if xs.None? then None else Some(CleanedBy(r, OwnershipOf(ps).value, xs.value))
  {
    hide MayClean, SettledCleanup, OwnershipOf, CleanedBy, Kinds;
  }

  lemma {:induction false} RemainingAtStart(r: Request, o: Ownership, settled: PortCall -> Reply)
    ensures RemainingBefore(o, 0) == SortedUniqueOf(Handles(o))
    ensures OperationsFit(r, o, []) && SettledCleanup(r, o, settled, 0) == Some([])
  {
  }

  lemma {:induction false} CleanCallAllowed(cfg: Configuration, r: Request, ps: seq<Payload>, o: Ownership,
                                            k: nat, call: PortCall)
    requires Kinds(ps) && |ps| == 15 && OwnershipOf(ps) == Some(o) && DistinctHandles(o) && k < 5
    requires call == CallClean(Key(Clean(OPERATIONS[k]), RequestDigest(r)), OPERATIONS[k], RemainingBefore(o, k),
                               OwnershipDigest(o), r.runId, Targets(o, OPERATIONS[k]))
    ensures call == CleanCall(r, RequestDigest(r), o, k) && Allowed(cfg, r, ps, Logged(15, call))
  {
    hide Kinds, OwnershipOf, RemainingBefore, Targets;
    assert call == CleanCall(r, RequestDigest(r), o, k);
    assert IsCleanCall(r, o, call);
  }

  /** Under settled answers the loop follows the settled cleanup, and when an answer is not
      good enough the settled cleanup stops there too. */
  lemma {:induction false} SettledStep(r: Request, o: Ownership, settled: PortCall -> Reply, k: nat,
                                       xs: seq<Receipt<CleanupOperationBody>>, reply: Reply)
    requires k < 5 && SettledCleanup(r, o, settled, k) == Some(xs)
    requires reply == settled(CleanCall(r, RequestDigest(r), o, k))
    ensures reply.CleanupReply? && OperationFits(r, o, k, reply.cleanup) ==>
      SettledCleanup(r, o, settled, k + 1) == Some(xs + [reply.cleanup])
    ensures !(reply.CleanupReply? && OperationFits(r, o, k, reply.cleanup)) ==>
      SettledCleanup(r, o, settled, 5).None?
  {
    hide OperationFits, CleanCall;
    if !(reply.CleanupReply? && OperationFits(r, o, k, reply.cleanup)) {
      assert SettledCleanup(r, o, settled, k + 1).None?;
      NoneStaysNone(r, o, settled, k + 1, 5);
    }
  }

  lemma {:induction false} NoneStaysNone(r: Request, o: Ownership, settled: PortCall -> Reply, j: nat, k: nat)
    requires j <= k <= 5 && SettledCleanup(r, o, settled, j).None?
    ensures SettledCleanup(r, o, settled, k).None?
  {
    hide OperationFits, CleanCall;
    if j < k { NoneStaysNone(r, o, settled, j, k - 1); }
  }
}
