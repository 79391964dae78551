/** The composed run as a durable, resumable execution. Ports, clock, storage, signals
    and process deaths are functions of the moment at which they are consulted, so one
    object stands for every schedule; `durable` is what the journal path holds. */
module DurableRun {
  import opened Wrappers
  import opened Contracts
  import opened PhaseJournal
  import opened JournalRuns
  import opened Receipts
  import opened Cleanup
  import opened Chain
  import opened Steps
  import opened Durable
  import opened ExpectedReceipts
  import opened CommittedRun

  datatype Event = Quiet | SignalArrives(signal: Signal) | FaultInjected | ProcessDies

  /** What happens to one atomic replacement of the journal file: it is confirmed, it
      fails before the rename, or it is renamed but not confirmed. */
  datatype Storage = Confirmed | Failed | Unconfirmed

  datatype Failure =
    | PortThrew | AnswerRefused | JournalRefused | StorageFailed | Injected | Signalled(signal: Signal) | Died
    | CleanupIncomplete(operation: CleanupOperation, remaining: seq<Contracts.Handle>, threw: bool)

  /** A failure that the answers themselves caused, not a fault. */
  predicate IsRefusal(f: Failure) { f.AnswerRefused? || (f.CleanupIncomplete? && !f.threw) }

  datatype Recovery = Recovery(
    authority: Digest, journalDigest: Digest, nextPhase: Phase, preservedEvidence: bool,
    runId: Name, command: Contracts.Handle, signal: Signal)

  datatype Outcome =
    | Finished(journal: Journal, receipt: Receipt<TerminalReceiptBody>)
    | Resumable(journal: Journal, recovery: Recovery)
    | Thrown(failure: Failure)
    | Unauthorized
    | Dead

  /** The operation records of a journal. */
  datatype Books = Books(operations: Option<seq<Operation>>, bootstrap: Option<seq<BootstrapOperation>>)

  function BooksOf(b: JournalBody): Books { Books(b.operations, b.bootstrapOperations) }

  /** The same journal up to what a run adds: entries, the mark of an interruption and operation records. */
  predicate Lineage(a: JournalBody, b: JournalBody) {
    b == a.(currentPhase := b.currentPhase, entries := b.entries, state := b.state, interruption := b.interruption,
            operations := b.operations, bootstrapOperations := b.bootstrapOperations)
  }

  lemma {:induction false} LineageGrows(start: JournalBody, b: JournalBody, phase: Phase, payload: Payload, at: int)
    requires Lineage(start, b)
    ensures Lineage(start, Appended(b, phase, payload, at))
    ensures BooksOf(Appended(b, phase, payload, at)) == BooksOf(b)
  {
  }

  lemma {:induction false} AppendedLast(b: JournalBody, phase: Phase, payload: Payload, at: int)
    ensures
      var n := Appended(b, phase, payload, at);
      |n.entries| == |b.entries| + 1 && n.entries[|b.entries|].recordedAt == at
  {
  }

  lemma {:induction false} LineageMarked(start: JournalBody, b: JournalBody, next: Phase, command: Contracts.Handle,
                                         signal: Signal)
    requires Lineage(start, b)
    ensures Lineage(start, Interrupted(b, next, command, signal))
    ensures BooksOf(Interrupted(b, next, command, signal)) == BooksOf(b)
  {
  }

  lemma {:induction false} LineageShared(start: JournalBody, a: JournalBody, b: JournalBody)
    requires SameLifecycle(a, b)
    ensures Lineage(start, a) <==> Lineage(start, b)
  {
  }

  class ComposedRun {
    const gate: Gate
    const cfg: Configuration
    const request: Request
    const ports: (nat, PortCall) -> Reply
    const records: nat -> seq<Action>
    const clock: nat -> int
    const events: nat -> Event
    const storage: nat -> Storage
    ghost const settled: PortCall -> Reply
    /** The journal this object was made for, and the operation records its ports ever leave. */
    ghost const start: JournalBody
    ghost const books: Books -> bool

    var durable: Journal
    var session: Journal
    var pending: Option<Signal>
    var moment: nat
    /** The moment at which the process that runs now began to listen for signals. */
    ghost var since: nat
    ghost var log: seq<Logged>
    ghost var commits: nat

    /** Every answer that is not a failure is the settled one. */
    ghost predicate Settles() {
      forall n, c :: ports(n, c) == Threw || ports(n, c) == settled(c)
    }

    ghost function History(): seq<Payload>
      reads this`durable
    {
      Payloads(durable.body.entries)
    }

    ghost predicate Inv()
      reads this
    {
      && Valid(gate, durable) && Disciplined(durable.body) && Chained(cfg, durable.body)
      && durable.body.request == request && Lineage(start, durable.body)
      && (Calm() ==> books(BooksOf(durable.body)))
      && Kinds(History()) && AllAllowed(cfg, request, History(), log)
      && commits + 1 == |durable.body.entries|
      && (Settles() ==> Faithful(cfg, request, settled, History())) && Listening()
    }

    /** The first signal that arrives at these moments. */
    ghost function FirstSignal(from: nat, to: nat): Option<Signal> {
      if to <= from then None
      else
        var earlier := FirstSignal(from, to - 1);
        if earlier.None? && events(to - 1).SignalArrives? then Some(events(to - 1).signal) else earlier
    }

    /** What is remembered is the first signal since the process began, and no later one. */
    ghost predicate Listening()
      reads this`pending, this`moment, this`since
    {
      since <= moment && pending == FirstSignal(since, moment)
    }

    /** It arrived, and none did before it. */
    lemma {:induction false} FirstSignalArrived(from: nat, to: nat)
      ensures FirstSignal(from, to).None? <==> forall n :: from <= n < to ==> !events(n).SignalArrives?
      ensures FirstSignal(from, to).Some? ==> exists n ::
        && from <= n < to && events(n) == SignalArrives(FirstSignal(from, to).value)
        && forall m :: from <= m < n ==> !events(m).SignalArrives?
    {
      if from < to { FirstSignalArrived(from, to - 1); }
    }

    /** The executor's copy differs from the durable journal only in operation records. */
    ghost predicate InStep(local: Journal)
      reads this
    {
      && session == durable && Valid(gate, local) && SameLifecycle(local.body, durable.body)
      && (Calm() ==> books(BooksOf(local.body)))
    }

    /** What every process keeps; within one of them it goes on listening from the same moment. */
    twostate predicate Grown()
      reads this
    {
      Inv() && Extends(old(durable.body), durable.body) && old(log) <= log
    }

    twostate predicate Kept()
      reads this
    {
      Grown() && since == old(since)
    }

    /** The settled answers do not lead past the last durable phase. */
    ghost predicate NothingFollows()
      reads this
    {
      Kinds(History()) && 1 <= |History()| <= 15 && NextFact(cfg, request, settled, History()).None?
    }

    /** A refusal is never spurious. */
    ghost predicate RefusalIsFinal(f: Failure)
      reads this
    {
      IsRefusal(f) && Settles() ==> NothingFollows()
    }

    /** And the signal that is thrown is the one remembered. */
    ghost predicate Accountable(f: Failure)
      reads this
    {
      RefusalIsFinal(f) && (f.Signalled? ==> pending == Some(f.signal))
    }

    /** No fault, signal or refused write ever, and a clock that does not go back. */
    ghost predicate Quietly() {
      && (forall n :: events(n) == Quiet && storage(n) == Confirmed)
      && (forall m, n :: 0 <= m <= n ==> clock(m) <= clock(n))
    }

    /** No call that this run can come to make fails. */
    ghost predicate Answers() {
      forall n, ps, e: Logged ::
        Faithful(cfg, request, settled, ps) && Allowed(cfg, request, ps, e) ==> ports(n, e.call) != Threw
    }

    /** A journal that this run can come to propose: the one it started with, extended by payloads
        that the settled answers determine and by records of its ports. */
    ghost predicate Proposable(b: JournalBody) {
      && Lineage(start, b) && books(BooksOf(b)) && b.interruption.None? && WellFormed(b) && ClockOk(b)
      && Chained(cfg, b) && Faithful(cfg, request, settled, Payloads(b.entries))
    }

    /** The JSON gate has room for every journal that this run can come to propose, and no more is
        asked of it. */
    ghost predicate Admits() {
      forall b :: Proposable(b) ==>
        gate(JournalContent(b)) && forall i :: 0 <= i < |b.entries| ==> gate(PayloadContent(b.entries[i].payload))
    }

    /** What the ports record is accounted for. */
    ghost predicate Booked() {
      forall n, j: Journal :: Valid(gate, j) && Lineage(start, j.body) && books(BooksOf(j.body)) ==>
        books(BooksOf(Recorded(gate, j, records(n)).body))
    }

    ghost predicate Calm() { Quietly() && Answers() && Settles() && Admits() && Booked() && books(BooksOf(start)) }

    ghost predicate OnTimeAt(at: int)
      reads this`durable
    {
      |durable.body.entries| >= 1 && durable.body.entries[|durable.body.entries| - 1].recordedAt <= at
    }

    ghost predicate OnTime()
      reads this
    {
      OnTimeAt(clock(moment))
    }

    ghost predicate Undisturbed()
      reads this
    {
      Calm() && pending.None? && session == durable && OnTime()
    }

    constructor (gate: Gate, cfg: Configuration, ports: (nat, PortCall) -> Reply, records: nat -> seq<Action>,
                 clock: nat -> int, events: nat -> Event, storage: nat -> Storage,
                 ghost settled: PortCall -> Reply, ghost books: Books -> bool, genesis: Journal)
      requires Valid(gate, genesis) && Disciplined(genesis.body) && |genesis.body.entries| == 1
      requires genesis.body.entries[0].payload == First(genesis.body.request)
      ensures Inv() && durable == genesis && session == genesis && log == [] && commits == 0
      ensures this.gate == gate && this.cfg == cfg && this.ports == ports && this.settled == settled
      ensures this.books == books && start == genesis.body
    {
      hide Valid, Disciplined, Chained, Faithful, Payloads, Kinds, Answers, Admits, Booked, Settles, Quietly;
      this.gate, this.cfg, this.request := gate, cfg, genesis.body.request;
      this.ports, this.records, this.clock, this.events, this.storage := ports, records, clock, events, storage;
      this.settled, this.books, start := settled, books, genesis.body;
      durable, session, pending, moment, since, log, commits := genesis, genesis, None, 0, 0, [], 0;
      new;
      GenesisIsChained(cfg, gate, settled, genesis);
    }

    /** A moment passes. A signal that arrives is remembered, the first one only. */
    method Tick() returns (now: nat)
      requires Listening()
      modifies this`pending, this`moment
      ensures Listening() && now == old(moment) && moment == now + 1
      ensures events(now) == Quiet ==> pending == old(pending)
    {
      now := moment;
      moment := moment + 1;
      if events(now).SignalArrives? { pending := Some(pending.GetOr(events(now).signal)); }
    }

    /** A fault or a pending signal is thrown. */
    method Boundary() returns (r: Result<bool, Failure>)
      requires Listening()
      modifies this`pending, this`moment
      ensures Listening() && moment == old(moment) + 1
      ensures r.Err? ==> !IsRefusal(r.error) && (r.error.Signalled? ==> pending == Some(r.error.signal))
      ensures r.Ok? <==> pending.None? && events(old(moment)) == Quiet
      ensures old(Undisturbed()) ==> Undisturbed() && r.Ok?
    {
      hide Answers, Admits, Booked, Settles;
      var now := Tick();
      if events(now).ProcessDies? { return Err(Died); }
      if events(now).FaultInjected? { return Err(Injected); }
      if pending.Some? { return Err(Signalled(pending.value)); }
      return Ok(true);
    }

    lemma {:induction false} CalmAt(n: nat, e: Logged)
      requires Inv() && Calm() && Allowed(cfg, request, History(), e)
      ensures events(n) == Quiet && storage(n) == Confirmed && ports(n, e.call) != Threw && clock(n) <= clock(n + 1)
    {
      hide Valid, Disciplined, Chained, AllAllowed, Allowed, Faithful, Payloads, Kinds, Admits, Booked, Settles;
    }

    /** One port call, during which the port may write operation records into the journal. */
    method Ask(call: PortCall) returns (r: Result<Reply, Failure>)
      requires Inv() && session == durable
      requires Allowed(cfg, request, History(), Logged(|durable.body.entries|, call))
      modifies this
      ensures Inv() && Extends(old(durable.body), durable.body) && SameLifecycle(old(durable.body), durable.body)
      ensures log == old(log) + [Logged(|old(durable.body.entries)|, call)] && since == old(since)
      ensures durable == Recorded(gate, old(durable), records(old(moment)))
      ensures r.Ok? ==> session == durable && r.value != Threw && r.value == ports(old(moment), call)
      ensures r.Err? ==>
        || (r.error == Died && events(old(moment)).ProcessDies?)
        || (r.error == PortThrew && (ports(old(moment), call) == Threw || storage(old(moment)) == Unconfirmed))
      ensures old(Undisturbed()) ==> Undisturbed() && r.Ok?
    {
      hide Valid, Disciplined, Extends, Chained, Calm, Lineage, BooksOf, Recorded, Allowed, Faithful, Payloads, Kinds,
           Settles;
      var now := Tick();
      log := log + [Logged(|durable.body.entries|, call)];
      if Calm() { CalmAt(now, Logged(|durable.body.entries|, call)); }
      RecordsAreBooked(now);
      RecordedKeeps(gate, durable, records(now));
      SameLifecycleSharesChain(cfg, durable.body, Recorded(gate, durable, records(now)).body);
      durable := Recorded(gate, durable, records(now));
      if storage(now) != Unconfirmed { session := durable; }
      if events(now).ProcessDies? { return Err(Died); }
      var reply := ports(now, call);
      if storage(now) == Unconfirmed || reply == Threw { return Err(PortThrew); }
      return Ok(reply);
    }

    /** One atomic replacement of the journal file by this session. */
    method Replace(next: Journal) returns (r: Result<bool, Failure>)
      requires session == durable && Listening()
      modifies this`durable, this`session, this`pending, this`moment
      ensures durable == old(durable) || durable == next
      ensures Listening() && (events(old(moment)) == Quiet ==> pending == old(pending))
      ensures r.Ok? ==> durable == next && session == next
      ensures r.Err? ==> r.error == StorageFailed
      ensures moment == old(moment) + 1 && (storage(old(moment)) == Confirmed ==> r.Ok?)
    {
      var now := Tick();
      var outcome := storage(now);
      if outcome == Failed { return Err(StorageFailed); }
      durable := next;
      if outcome == Unconfirmed { return Err(StorageFailed); }
      session := next;
      return Ok(true);
    }

    /** The gate admits what a commit proposes, for either copy. */
    lemma {:induction false} Admitted(j: Journal, fact: Fact, at: int)
      requires Inv() && Calm() && InStep(j) && OnTimeAt(at) &&
        |j.body.entries| <= 16 && MayFollow(cfg, durable.body, fact)
      requires |j.body.entries| <= 15 ==> NextFact(cfg, request, settled, History()) == Some(fact)
      ensures
        var payload := Payload(request.runId, fact);
        gate(PayloadContent(payload))
        && gate(JournalContent(Appended(j.body, PhaseAt(|j.body.entries|), payload, at)))
    {
      hide Valid, WellFormed, ClockOk, Disciplined, Chained, MayFollow, Faithful, NextFact, Payloads, Kinds,
           AllAllowed, PhaseAt, NextPhase, Quietly, Answers, Booked, Settles;
      var payload, phase := Payload(request.runId, fact), PhaseAt(|j.body.entries|);
      var n := Appended(j.body, phase, payload, at);
      NextPhaseOfEntries(gate, j);
      SameLifecycleSharesChain(cfg, j.body, durable.body);
      MayFollowShared(j.body, fact);
      AppendedIsWellFormed(gate, j, phase, payload, at);
      ChainedGrows(cfg, j.body, phase, fact, at);
      ChainedIsLinked(cfg, n);
      FaithfulGrows(cfg, request, settled, History(), payload);
      assert Proposable(n);
      assert n.entries[|j.body.entries|].payload == payload;
    }

    /** So nothing but a clock that went back stands in the way of a commit, in either copy. */
    lemma {:induction false} BothAppend(local: Journal, fact: Fact, at: int)
      requires Inv() && Calm() && InStep(local) && OnTimeAt(at) && |local.body.entries| <= 16
      requires MayFollow(cfg, durable.body, fact)
      requires |local.body.entries| <= 15 ==> NextFact(cfg, request, settled, History()) == Some(fact)
      ensures Append(gate, local, PhaseAt(|local.body.entries|), Payload(request.runId, fact), at).Ok?
      ensures Append(gate, durable, PhaseAt(|local.body.entries|), Payload(request.runId, fact), at).Ok?
    {
      hide Valid, Append, Appended, Disciplined, Chained, MayFollow, Faithful, NextFact, Payloads, Kinds, AllAllowed,
           PhaseAt, Answers, Admits, Booked, Quietly, Proposable, Lineage;
      SameLifecycleSharesChain(cfg, local.body, durable.body);
      Admitted(local, fact, at);
      Admitted(durable, fact, at);
      AdmittedAppends(gate, local, durable, Payload(request.runId, fact), at);
    }

    /** What a commit proposes is the executor's copy with the newest entry, and still of this run. */
    lemma {:induction false} Proposed(local: Journal, next: Journal, fact: Fact, at: int)
      requires Inv() && InStep(local) && |local.body.entries| <= 16
      requires Append(gate, local, PhaseAt(|local.body.entries|), Payload(request.runId, fact), at) == Ok(next)
      ensures
        var last := |local.body.entries|;
        && |next.body.entries| == last + 1
        && next.body.entries[last] == NewEntry(PhaseAt(last), Payload(request.runId, fact), at)
        && PhaseAt(last) != durable.body.currentPhase && OnTimeAt(at)
        && Valid(gate, next) && BooksOf(next.body) == BooksOf(local.body)
    {
      hide Valid, Disciplined, Extends, Chained, Calm, Append, Appended, Faithful, Payloads, Kinds, AllAllowed,
           PhaseAt, NextPhase;
      var phase, payload := PhaseAt(|local.body.entries|), Payload(request.runId, fact);
      NextPhaseOfEntries(gate, local);
      AppendShape(gate, local, phase, payload, at);
      AppendedStayInStep(local.body, durable.body, phase, payload, at);
      PhaseMoves(durable.body.currentPhase, phase);
      AppendedOnTime(gate, local, phase, payload, at);
      LineageShared(start, local.body, durable.body);
      LineageGrows(start, local.body, phase, payload, at);
    }

    /** And the durable copy with that entry re-applied is one commit further, in step with it. */
    lemma {:induction false} Merged(local: Journal, next: Journal, n: Journal, fact: Fact, at: int)
      requires Inv() && InStep(local) && |local.body.entries| <= 16 && MayFollow(cfg, durable.body, fact)
      requires Settles() && |local.body.entries| <= 15 ==> NextFact(cfg, request, settled, History()) == Some(fact)
      requires Append(gate, local, PhaseAt(|local.body.entries|), Payload(request.runId, fact), at) == Ok(next)
      requires Append(gate, durable, PhaseAt(|local.body.entries|), Payload(request.runId, fact), at) == Ok(n)
      ensures
        var ps := History() + [Payload(request.runId, fact)];
        && Valid(gate, n) && Disciplined(n.body) && Extends(durable.body, n.body) && Chained(cfg, n.body)
        && n.body.request == request && Lineage(start, n.body) && BooksOf(n.body) == BooksOf(durable.body)
        && |n.body.entries| == |durable.body.entries| + 1 && n.body.entries[|durable.body.entries|].recordedAt == at
        && Payloads(n.body.entries) == ps && Kinds(ps) && AllAllowed(cfg, request, ps, log)
        && (Settles() ==> Faithful(cfg, request, settled, ps)) && SameLifecycle(next.body, n.body)
    {
      hide Valid, Disciplined, Extends, Chained, Calm, Append, Appended, MayFollow, Faithful, NextFact, Payloads,
           Kinds, AllAllowed, PhaseAt, NextPhase;
      var phase, payload := PhaseAt(|local.body.entries|), Payload(request.runId, fact);
      NextPhaseOfEntries(gate, local);
      SameLifecycleSharesChain(cfg, local.body, durable.body);
      AppendShape(gate, local, phase, payload, at);
      AppendedStayInStep(local.body, durable.body, phase, payload, at);
      GrownKeeps(cfg, gate, durable, fact, at, log);
      AppendedLast(durable.body, phase, payload, at);
      LineageGrows(start, durable.body, phase, payload, at);
      if Settles() { FaithfulGrows(cfg, request, settled, History(), payload); }
    }

    /** What a port records is accounted for in the durable journal. */
    lemma {:induction false} RecordsAreBooked(now: nat)
      requires Inv()
      ensures
        var n := Recorded(gate, durable, records(now));
        SameLifecycle(durable.body, n.body) && Lineage(start, n.body) && (Calm() ==> books(BooksOf(n.body)))
    {
      hide Valid, Disciplined, Chained, Faithful, Payloads, Kinds, AllAllowed, Recorded, Answers, Admits, Quietly,
           Settles;
      RecordedKeeps(gate, durable, records(now));
      LineageShared(start, durable.body, Recorded(gate, durable, records(now)).body);
    }

    lemma {:induction false} MayFollowShared(b: JournalBody, fact: Fact)
      requires SameLifecycle(b, durable.body) && MayFollow(cfg, durable.body, fact)
      ensures MayFollow(cfg, b, fact)
    {
      hide Linked, TerminalOf, Kinds, Payloads;
    }

    /** Re-applies only the newest entry of `next`, the extended copy of `local`, to the
        durable journal. */
    method Persist(next: Journal, ghost local: Journal, ghost fact: Fact, ghost at: int)
      returns (r: Result<bool, Failure>)
      requires Inv() && InStep(local) && |local.body.entries| <= 16 && MayFollow(cfg, durable.body, fact)
      requires Settles() && |local.body.entries| <= 15 ==>
        NextFact(cfg, request, settled, History()) == Some(fact)
      requires Append(gate, local, PhaseAt(|local.body.entries|), Payload(request.runId, fact), at) == Ok(next)
      modifies this
      ensures Kept() && log == old(log)
      ensures r.Ok? ==> InStep(next) && History() == old(History()) + [Payload(request.runId, fact)]
      ensures |next.body.entries| == |local.body.entries| + 1
      ensures next.body.entries[|local.body.entries|].recordedAt == at
      ensures r.Err? ==> !IsRefusal(r.error) && !r.error.Signalled?
      ensures old(Undisturbed()) && at <= clock(old(moment)) ==> Undisturbed() && r.Ok?
    {
      hide Valid, Disciplined, Extends, Chained, Answers, Admits, Booked, Settles, Lineage, BooksOf, Append,
           MayFollow, Faithful, NextFact, Payloads, Kinds, AllAllowed, PhaseAt, NextPhase, SameLifecycle;
      ExtendsReflexive(durable.body);
      Proposed(local, next, fact, at);
      var proposed := next.body.entries[|next.body.entries| - 1];
      if Calm() { BothAppend(local, fact, at); }
      var merged := Append(gate, session, proposed.phase, proposed.payload, proposed.recordedAt);
      if merged.Err? { return Err(JournalRefused); }
      Merged(local, next, merged.value, fact, at);
      r := Replace(merged.value);
      if durable == merged.value { commits := commits + 1; }
    }

    /** The last moment was a boundary, and nothing came up at it. */
    predicate Exposed()
      reads this`pending, this`moment
    {
      pending.None? && moment > 0 && events(moment - 1) == Quiet
    }

    /** Append, persist, then expose the boundary. */
    method Commit(local: Journal, fact: Fact) returns (r: Result<Journal, Failure>)
      requires Inv() && InStep(local) && |local.body.entries| <= 16
      requires MayFollow(cfg, durable.body, fact)
      requires Settles() && |local.body.entries| <= 15 ==>
        NextFact(cfg, request, settled, History()) == Some(fact)
      modifies this
      ensures Kept() && log == old(log)
      ensures r.Ok? ==> InStep(r.value) && History() == old(History()) + [Payload(request.runId, fact)]
      ensures r.Ok? ==> |r.value.body.entries| == |local.body.entries| + 1
      ensures r.Ok? ==> r.value.body.entries[|local.body.entries|].recordedAt == clock(old(moment))
      ensures r.Ok? ==> Exposed()
      ensures r.Err? ==> !IsRefusal(r.error) && (r.error.Signalled? ==> pending == Some(r.error.signal))
      ensures old(Undisturbed()) ==> Undisturbed() && r.Ok?
    {
      hide Valid, Disciplined, Extends, Chained, Answers, Admits, Booked, Proposable, Lineage, BooksOf, Append,
           MayFollow, Faithful, NextFact, Payloads, Kinds, AllAllowed, PhaseAt, FirstSignal;
      var now := Tick();
      ExtendsReflexive(durable.body);
      var next := Append(gate, local, PhaseAt(|local.body.entries|), Payload(request.runId, fact), clock(now));
      if Calm() && OnTimeAt(clock(now)) { BothAppend(local, fact, clock(now)); }
      if next.Err? { return Err(JournalRefused); }
      var persisted := Persist(next.value, local, fact, clock(now));
      if persisted.Err? { return Err(persisted.error); }
      var boundary := Boundary();
      if boundary.Err? { return Err(boundary.error); }
      return Ok(next.value);
    }

    predicate Reached(j: Journal, p: Phase) { Index(p) < |j.body.entries| }

    /** What refuses an answer: it is not the expected one, or the call may not be made. */
    ghost predicate Refuses(ps: seq<Payload>, answer: Option<Reply>) {
      && Kinds(ps) && ByOneCall(|ps|)
      && if answer.Some? then !Expected(cfg, request, ps, answer.value) else Withheld(request, ps)
    }

    /** A fact that carries the answer is the one thing more. */
    ghost predicate Took(ps: seq<Payload>, qs: seq<Payload>, answer: Option<Reply>) {
      answer.Some? && |qs| == |ps| + 1 && Carries(qs[|ps|].fact, answer.value)
    }

    /** The answer to the last call, asked for at that moment. */
    ghost predicate Answered(n: nat, answer: Option<Reply>)
      reads this`log
    {
      answer.Some? ==> log != [] && answer.value == ports(n, log[|log| - 1].call)
    }

    /** The check before a call, the call, and the check of its answer. */
    method Obtain(journal: Journal) returns (r: Result<Fact, Failure>, ghost answer: Option<Reply>)
      requires Inv() && InStep(journal) && ByOneCall(|journal.body.entries|)
      modifies this
      ensures Kept() && SameLifecycle(old(durable.body), durable.body) && Answered(old(moment), answer)
      ensures r == Err(AnswerRefused) <==> Refuses(old(History()), answer)
      ensures r.Ok? ==> InStep(journal) && MayFollow(cfg, durable.body, r.value)
      ensures r.Ok? ==> answer.Some? && Carries(r.value, answer.value)
      ensures r.Ok? && Settles() ==> NextFact(cfg, request, settled, History()) == Some(r.value)
      ensures r.Err? ==> Accountable(r.error)
      ensures old(Undisturbed()) ==> Undisturbed() && (r.Err? ==> IsRefusal(r.error))
    {
      hide Valid, Disciplined, Extends, Chained, Answers, Admits, Booked, Proposable, Lineage, BooksOf, Accept,
           CallFor, MayFollow, Faithful, NextFact, Payloads, Kinds, AllAllowed, MayCall, Expected, Carries, Withheld,
           FirstSignal, Listening, Quietly;
      SameLifecycleSharesChain(cfg, journal.body, durable.body);
      var ps := Payloads(journal.body.entries);
      ExtendsReflexive(durable.body);
      assert |ps| == |journal.body.entries|;
      MayCallExactly(request, ps);
      if !MayCall(request, ps) {
        NextFactByCall(cfg, request, settled, ps);
        return Err(AnswerRefused), None;
      }
      var call := CallFor(cfg, request, ps, |ps|);
      label Asking:
      var asked := Ask(call);
      SameLifecycleSharesChain(cfg, old@Asking(durable.body), durable.body);
      if asked.Err? { return Err(asked.error), None; }
      answer := Some(asked.value);
      AcceptedExactly(cfg, request, ps, asked.value);
      var fact := Accept(cfg, request, ps, asked.value);
      if Settles() { NextFactByCall(cfg, request, settled, ps); }
      if fact.None? { return Err(AnswerRefused), answer; }
      AcceptedLinks(cfg, request, ps, asked.value);
      FactFollows(cfg, durable.body, fact.value);
      SameLifecycleTransitive(journal.body, old@Asking(durable.body), durable.body);
      return Ok(fact.value), answer;
    }

    /** One phase that takes one port call: the answer, if it is the expected one, and its commit. */
    method Advance(journal: Journal) returns (r: Result<Journal, Failure>, ghost answer: Option<Reply>)
      requires Inv() && InStep(journal) && ByOneCall(|journal.body.entries|)
      modifies this
      ensures Kept() && Answered(old(moment), answer)
      ensures r == Err(AnswerRefused) <==> Refuses(old(History()), answer)
      ensures r.Ok? ==> InStep(r.value) && |r.value.body.entries| == |journal.body.entries| + 1
      ensures r.Ok? ==> Took(old(History()), History(), answer)
      ensures r.Err? ==> Accountable(r.error)
      ensures old(Undisturbed()) ==> Undisturbed() && (r.Err? ==> IsRefusal(r.error))
    {
      hide Valid, Disciplined, Extends, Chained, Answers, Admits, Booked, Proposable, Lineage, BooksOf, MayFollow,
           Faithful, NextFact, Payloads, Kinds, AllAllowed, Carries, FirstSignal, Listening, Quietly, Refuses;
      var obtained;
      obtained, answer := Obtain(journal);
      if obtained.Err? { return Err(obtained.error), answer; }
      SameLifecycleSharesChain(cfg, old(durable.body), durable.body);
      assert |journal.body.entries| == |History()|;
      label Committing:
      r := Commit(journal, obtained.value);
      ExtendsTransitive(old(durable.body), old@Committing(durable.body), durable.body);
    }

    /** Nothing a stage checks again on committed payloads can fail. */
    lemma {:induction false} NoRecheckFails()
      requires Inv()
      ensures StartupRechecks(cfg, request, History()) && LaterRechecks(cfg, request, History())
    {
      hide Valid, Disciplined, Linked, AllAllowed, Faithful;
      ChainedIsLinked(cfg, durable.body);
      ChainSurvivesStages(cfg, request, History());
    }

    /** A stage skips a phase that the journal has already reached. */
    method AdvanceTo(journal: Journal, p: Phase) returns (r: Result<Journal, Failure>)
      requires Inv() && InStep(journal) && ByOneCall(Index(p)) && |journal.body.entries| >= Index(p)
      modifies this
      ensures Kept()
      ensures r.Ok? ==> InStep(r.value) && Reached(r.value, p) && |r.value.body.entries| >= |journal.body.entries|
      ensures r.Err? ==> Accountable(r.error)
      ensures old(Undisturbed()) ==> Undisturbed() && (r.Err? ==> IsRefusal(r.error))
    {
      hide Inv, InStep, Extends, Calm, Undisturbed;
      if Reached(journal, p) {
        ExtendsReflexive(durable.body);
        return Ok(journal);
      }
      var advanced, _ := Advance(journal);
      return advanced;
    }

    /** Creates the world, starts it paused, and waits for pristine readiness. */
    method StartWorld(input: Journal) returns (r: Result<Journal, Failure>)
      requires Inv() && InStep(input) && Reached(input, Prepared)
      modifies this
      ensures Kept()
      ensures r.Ok? ==> InStep(r.value) && Reached(r.value, WorldReady)
      ensures r.Err? ==> Accountable(r.error)
      ensures old(Undisturbed()) ==> Undisturbed() && (r.Err? ==> IsRefusal(r.error))
    {
      hide Inv, InStep, Extends, Calm, Undisturbed;
      ExtensionsCompose();
      var journal :- AdvanceTo(input, WorldCreated);
      journal :- AdvanceTo(journal, WorldStartedPaused);
      r := AdvanceTo(journal, WorldReady);
    }

    /** Starts the organization, then reads its readiness. */
    method StartOrganization(input: Journal) returns (r: Result<Journal, Failure>)
      requires Inv() && InStep(input) && Reached(input, WorldReady)
      modifies this
      ensures Kept()
      ensures r.Ok? ==> InStep(r.value) && Reached(r.value, OrganizationReady)
      ensures r.Err? ==> Accountable(r.error)
      ensures old(Undisturbed()) ==> Undisturbed() && (r.Err? ==> IsRefusal(r.error))
    {
      hide Inv, InStep, Extends, Calm, Undisturbed;
      ExtensionsCompose();
      var journal :- AdvanceTo(input, OrganizationStarted);
      r := AdvanceTo(journal, OrganizationReady);
    }

    /** Attests both owners, publishes one activation, then observes tick 1. */
    method ActivateTopology(input: Journal) returns (r: Result<Journal, Failure>)
      requires Inv() && InStep(input) && Reached(input, OrganizationReady)
      modifies this
      ensures Kept()
      ensures r.Ok? ==> InStep(r.value) && Reached(r.value, Tick1)
      ensures r.Err? ==> Accountable(r.error)
      ensures old(Undisturbed()) ==> Undisturbed() && (r.Err? ==> IsRefusal(r.error))
    {
      hide Inv, InStep, Extends, Calm, Undisturbed;
      ExtensionsCompose();
      var journal :- AdvanceTo(input, TopologyVerified);
      journal :- AdvanceTo(journal, Activated);
      r := AdvanceTo(journal, Tick1);
    }

    /** The running receipt is computed, not asked for. */
    method CommitRunning(journal: Journal) returns (r: Result<Journal, Failure>)
      requires Inv() && InStep(journal) && |journal.body.entries| == 10
      modifies this
      ensures Kept()
      ensures r.Ok? ==> InStep(r.value) && Reached(r.value, Running)
      ensures r.Err? ==> Accountable(r.error)
      ensures old(Undisturbed()) ==> Undisturbed() && (r.Err? ==> IsRefusal(r.error))
    {
      hide Valid, Disciplined, Extends, Chained, Answers, Admits, Booked, Proposable, Lineage, BooksOf, MayFollow,
           Faithful, Payloads, Kinds, AllAllowed;
      SameLifecycleSharesChain(cfg, journal.body, durable.body);
      ExtendsReflexive(durable.body);
      var ps := Payloads(journal.body.entries);
      assert |ps| == 10;
      if !TickInRange(cfg) { return Err(AnswerRefused); }
      RunningFollows(cfg, durable.body);
      r := Commit(journal, RunningNext(request, ps));
    }

    /** Waits for the world to end at the configured tick. */
    method Supervise(input: Journal) returns (r: Result<Journal, Failure>)
      requires Inv() && InStep(input) && Reached(input, Tick1)
      modifies this
      ensures Kept()
      ensures r.Ok? ==> InStep(r.value) && Reached(r.value, Terminal)
      ensures r.Err? ==> Accountable(r.error)
      ensures old(Undisturbed()) ==> Undisturbed() && (r.Err? ==> IsRefusal(r.error))
    {
      hide Inv, InStep, Extends, Calm, Undisturbed;
      ExtensionsCompose();
      var journal := input;
      if !Reached(journal, Running) {
        journal :- CommitRunning(journal);
      }
      r := AdvanceTo(journal, Terminal);
    }

    /** Pauses the world and exports its evidence. */
    method FinalizeWorld(input: Journal) returns (r: Result<Journal, Failure>)
      requires Inv() && InStep(input) && Reached(input, Terminal)
      modifies this
      ensures Kept()
      ensures r.Ok? ==> InStep(r.value) && Reached(r.value, WorldEvidenceExported)
      ensures r.Err? ==> Accountable(r.error)
      ensures old(Undisturbed()) ==> Undisturbed() && (r.Err? ==> IsRefusal(r.error))
    {
      hide Inv, InStep, Extends, Calm, Undisturbed;
      ExtensionsCompose();
      var journal :- AdvanceTo(input, WorldPaused);
      r := AdvanceTo(journal, WorldEvidenceExported);
    }

    /** Exports the organization's evidence once the world's is durable. */
    method FinalizeOrganization(input: Journal) returns (r: Result<Journal, Failure>)
      requires Inv() && InStep(input) && Reached(input, WorldEvidenceExported)
      modifies this
      ensures Kept()
      ensures r.Ok? ==> InStep(r.value) && Reached(r.value, OrganizationEvidenceExported)
      ensures r.Err? ==> Accountable(r.error)
      ensures old(Undisturbed()) ==> Undisturbed() && (r.Err? ==> IsRefusal(r.error))
    {
      hide Inv, InStep, Extends, Calm, Undisturbed;
      r := AdvanceTo(input, OrganizationEvidenceExported);
    }

    /** The five cleanup operations in order. A failure names exactly the handles that no
        believed receipt released. */
    method ReleaseHandles(ps: seq<Payload>, o: Ownership)
      returns (r: Result<seq<Receipt<CleanupOperationBody>>, Failure>,
               ghost believed: seq<Receipt<CleanupOperationBody>>)
      requires Inv() && session == durable && ps == History() && |ps| == 15
      requires OwnershipOf(ps) == Some(o) && DistinctHandles(o)
      modifies this
      ensures Kept() && SameLifecycle(old(durable.body), durable.body)
      ensures r.Ok? ==> session == durable && |r.value| == 5 && OperationsFit(request, o, r.value)
      ensures r.Ok? && Settles() ==> SettledCleanup(request, o, settled, 5) == Some(r.value)
      ensures r.Err? ==> r.error == Died || r.error.CleanupIncomplete?
      ensures r.Err? && r.error.CleanupIncomplete? ==>
        Believed(request, o, believed) && Conserved(o, believed, r.error.remaining)
      ensures r.Err? && IsRefusal(r.error) && Settles() ==> SettledCleanup(request, o, settled, 5).None?
      ensures old(Undisturbed()) ==> Undisturbed() && (r.Err? ==> IsRefusal(r.error))
    {
      hide Valid, Disciplined, Extends, Chained, Answers, Admits, Booked, Proposable, Lineage, BooksOf, Faithful,
           Payloads, Kinds, AllAllowed, Allowed, OperationParses, OperationsFit, CleanCall, OwnershipOf,
           DistinctHandles, RemainingBefore, Correlates, Finishes, Believed, Conserved, SettledCleanup, Without,
           SortedUniqueOf, Targets;
      ExtendsReflexive(durable.body);
      ExtensionsCompose();
      var remaining := SortedUniqueOf(Handles(o));
      var receipts: seq<Receipt<CleanupOperationBody>> := [];
      RemainingAtStart(request, o, settled);
      for k := 0 to 5
        invariant Kept() && session == durable && SameLifecycle(old(durable.body), durable.body)
        invariant |receipts| == k && OperationsFit(request, o, receipts) && remaining == RemainingBefore(o, k)
        invariant Settles() ==> SettledCleanup(request, o, settled, k) == Some(receipts)
        invariant old(Undisturbed()) ==> Undisturbed()
      {
        var name := OPERATIONS[k];
        var call := CallClean(Key(Clean(name), RequestDigest(request)), name, remaining, OwnershipDigest(o),
                              request.runId, Targets(o, name));
        CleanCallAllowed(cfg, request, ps, o, k, call);
        FitIsBelieved(request, o, receipts);
        FitConserves(request, o, receipts);
        believed := receipts;
        SameLifecycleSharesChain(cfg, old(durable.body), durable.body);
        var asked := Ask(call);
        if asked.Err? {
          return Err(if asked.error == Died then Died else CleanupIncomplete(name, remaining, true)), believed;
        }
        if Settles() { SettledStep(request, o, settled, k, receipts, asked.value); }
        if !asked.value.CleanupReply? || !OperationParses(asked.value.cleanup)
           || !Correlates(request, o, name, remaining, asked.value.cleanup) {
          return Err(CleanupIncomplete(name, remaining, false)), believed;
        }
        var x := asked.value.cleanup;
        BelieveOneMore(request, o, receipts, x);
        remaining := Without(remaining, x.body.released);
        believed := receipts + [x];
        if !Finishes(o, name, x) { return Err(CleanupIncomplete(name, remaining, false)), believed; }
        OneMoreFits(request, o, k, receipts, x);
        receipts := receipts + [x];
      }
      NothingRemains(o);
      assert remaining == [];
      return Ok(receipts), receipts;
    }

    /** Cleans up only after both evidence exports, and only what the committed receipts
        show to be owned. */
    method CleanUp(journal: Journal) returns (r: Result<Journal, Failure>)
      requires Inv() && InStep(journal) && Reached(journal, OrganizationEvidenceExported)
      modifies this
      ensures Kept()
      ensures r.Ok? ==> InStep(r.value) && Reached(r.value, Cleaned)
      ensures r.Err? ==> Accountable(r.error)
      ensures old(Undisturbed()) ==> Undisturbed() && (r.Err? ==> IsRefusal(r.error))
    {
      hide Valid, Disciplined, Extends, Chained, Answers, Admits, Booked, Proposable, Lineage, BooksOf, MayFollow,
           Faithful, Payloads, Kinds, AllAllowed, NextFact, EvidenceCorrelates, OperationsFit, OwnershipOf,
           DistinctHandles, Believed, Conserved, SettledCleanup, CleanedBy;
      SameLifecycleSharesChain(cfg, journal.body, durable.body);
      ExtendsReflexive(durable.body);
      ExtensionsCompose();
      var ps := Payloads(journal.body.entries);
      assert |ps| == |journal.body.entries|;
      NoRecheckFails();
      if Reached(journal, Cleaned) { return Ok(journal); }
      CleanedNextFact(cfg, request, settled, ps);
      if !EvidenceCorrelates(request, ps) || !OwnershipChecks(request, ps) { return Err(AnswerRefused); }
      var o := OwnershipOf(ps).value;
      label Releasing:
      var released, _ := ReleaseHandles(ps, o);
      SameLifecycleSharesChain(cfg, old@Releasing(durable.body), durable.body);
      if released.Err? { return Err(released.error); }
      SameLifecycleTransitive(journal.body, old@Releasing(durable.body), durable.body);
      CleanedFollows(cfg, durable.body, released.value);
      r := Commit(journal, CleanedBy(request, o, released.value));
    }

    lemma {:induction false} InStepEntries(local: Journal)
      requires InStep(local)
      ensures 1 <= |local.body.entries| <= 17
      ensures local.body.currentPhase == Phase.Completed <==> |local.body.entries| == 17
    {
      EntriesOfValid(gate, local);
    }

    /** The whole lifecycle, from wherever the journal is. */
    method Execute(input: Journal)
      returns (r: Result<(Journal, Receipt<TerminalReceiptBody>), Failure>)
      requires Inv() && InStep(input)
      modifies this
      ensures Kept()
      ensures r.Ok? ==> InStep(r.value.0) && durable.body.currentPhase == Phase.Completed
      ensures r.Ok? ==> CompletedReceipt(gate, durable) == Some(r.value.1)
      ensures r.Ok? ==> SaysTerminal(cfg, durable.body, r.value.1)
      ensures r.Err? ==> Accountable(r.error)
      ensures old(Undisturbed()) ==> Undisturbed() && (r.Err? ==> IsRefusal(r.error))
    {
      hide Inv, InStep, Extends, Calm, CompletedReceipt, RefusalIsFinal, Undisturbed, SaysTerminal;
      ExtensionsCompose();
      InStepEntries(input);
      if input.body.currentPhase == Phase.Completed {
        r := CompleteRun(input);
        return;
      }
      var journal :- AdvanceTo(input, Prepared);
      journal :- StartWorld(journal);
      journal :- StartOrganization(journal);
      journal :- ActivateTopology(journal);
      journal :- Supervise(journal);
      journal :- FinalizeWorld(journal);
      journal :- FinalizeOrganization(journal);
      journal :- CleanUp(journal);
      r := CompleteRun(journal);
    }

    /** Reads the receipt of a completed journal; otherwise cross-checks the
        committed receipts, seals the terminal receipt and commits it. */
    method CompleteRun(journal: Journal)
      returns (r: Result<(Journal, Receipt<TerminalReceiptBody>), Failure>)
      requires Inv() && InStep(journal) && Reached(journal, Cleaned)
      modifies this
      ensures Kept()
      ensures r.Ok? ==> InStep(r.value.0) && durable.body.currentPhase == Phase.Completed
      ensures r.Ok? ==> CompletedReceipt(gate, durable) == Some(r.value.1)
      ensures r.Ok? ==> SaysTerminal(cfg, durable.body, r.value.1)
      ensures r.Err? ==> Accountable(r.error)
      ensures old(Undisturbed()) ==> Undisturbed() && (r.Err? ==> IsRefusal(r.error))
    {
      hide Valid, Disciplined, Extends, Chained, Answers, Admits, Booked, Proposable, Lineage, BooksOf, MayFollow,
           Faithful, Payloads, Kinds, AllAllowed, NextFact, TerminalOf, TerminalCrossCheck, CompletedReceipt,
           SaysTerminal;
      ExtendsReflexive(durable.body);
      EntriesOfValid(gate, journal);
      SameLifecycleSharesChain(cfg, journal.body, durable.body);
      var es := journal.body.entries;
      if |es| == 17 {
        CompletedReceiptSays(cfg, gate, durable);
        return Ok((journal, CompletedReceipt(gate, durable).value));
      }
      assert TerminalCrossCheck(request, Payloads(es)) by {
        ChainedIsLinked(cfg, durable.body);
        ChainPassesTerminalCrossCheck(cfg, request, Payloads(es));
      }
      TerminalFollows(cfg, durable.body);
      var x := TerminalOf(cfg, request, es);
      label Committing:
      var committed :- Commit(journal, CompletedFact(x, x.digest));
      EntriesOfValid(gate, durable);
      CompletedReceiptFromJournal(cfg, gate, durable);
      CompletedReceiptSays(cfg, gate, durable);
      ExtendsKeepsEntries(old@Committing(durable.body), durable.body);
      assert durable.body.entries[..16] == es;
      return Ok((committed, x));
    }

    /** In one moment, and the mark is all that changed in the durable journal. */
    twostate predicate MadeUp(recovery: Recovery, command: Contracts.Handle)
      reads this
    {
      && moment == old(moment) + 1
      && durable.body == old(durable.body).(
           interruption := Some(Interruption(recovery.nextPhase, command, recovery.signal)),
           state := State.Recoverable)
    }

    /** What a failed execution reports: the completed receipt if the completed phase is
        durable, otherwise a recovery receipt for the journal marked recoverable. */
    method Recover(failure: Failure, command: Contracts.Handle) returns (outcome: Outcome)
      requires Inv() && (failure.Signalled? ==> pending == Some(failure.signal))
      modifies this`durable, this`session, this`pending, this`moment
      ensures Kept() && log == old(log)
      ensures session == durable && durable.body.currentPhase == Phase.Completed ==> outcome.Finished?
      ensures Reported(outcome, command) && outcome != Unauthorized && outcome != Dead
      ensures durable.body.entries == old(durable.body.entries)
      ensures outcome.Resumable? ==> MadeUp(outcome.recovery, command) && outcome.recovery.signal == SignalHeard()
    {
      hide Valid, Disciplined, Extends, Chained, Calm, Lineage, BooksOf, Faithful, Payloads, Kinds, AllAllowed,
           CompletedReceipt, NextPhase, FirstSignal, MarkRefused, SaysTerminal;
      ExtendsReflexive(durable.body);
      if session != durable { return Thrown(StorageFailed); }
      EntriesOfValid(gate, durable);
      if session.body.currentPhase == Phase.Completed {
        CompletedReceiptSays(cfg, gate, durable);
        return Finished(session, CompletedReceipt(gate, session).value);
      }
      var signal := if failure.Signalled? then failure.signal else pending.GetOr(Signal.Failure);
      assert Listening() && signal == FirstSignal(since, moment).GetOr(Signal.Failure);
      outcome := Mark(command, signal);
    }

    /** Marks the journal recoverable and makes up the recovery receipt. */
    method Mark(command: Contracts.Handle, signal: Signal) returns (outcome: Outcome)
      requires Inv() && session == durable && durable.body.currentPhase != Phase.Completed
      modifies this`durable, this`session, this`pending, this`moment
      ensures Kept() && log == old(log) && Reported(outcome, command) && (outcome.Resumable? || outcome.Thrown?)
      ensures durable.body.entries == old(durable.body.entries)
      ensures durable.body.currentPhase == old(durable.body.currentPhase)
      ensures outcome.Resumable? ==> MadeUp(outcome.recovery, command) && outcome.recovery.signal == signal
    {
      hide Valid, Disciplined, Extends, Chained, Calm, Lineage, BooksOf, Faithful, Payloads, Kinds, AllAllowed,
           CompletedReceipt, MarkRecoverable, Interrupted, NextPhase, FirstSignal, Listening, SaysTerminal;
      ExtendsReflexive(durable.body);
      EntriesOfValid(gate, durable);
      var marked := MarkRecoverable(gate, session, command, signal);
      MarkSucceedsExactly(gate, durable, command, signal);
      if marked.Err? { return Thrown(JournalRefused); }
      NextPhaseOfEntries(gate, durable);
      LineageMarked(start, durable.body, NextPhase(durable.body.currentPhase).value, command, signal);
      MarkKeeps(gate, durable, command, signal);
      MarkedIsChained(cfg, gate, durable, command, signal);
      MarkedBody(gate, durable, command, signal);
      var stored := Replace(marked.value);
      if stored.Err? { return Thrown(stored.error); }
      var b := marked.value.body;
      return Resumable(marked.value, Recovery(
        b.authority, marked.value.digest, b.interruption.value.nextPhase, Reached(marked.value, WorldEvidenceExported),
        b.request.runId, command, signal));
    }

    /** The first signal that arrived before the last moment, when the outcome was made up, or Failure
        when there was none. */
    ghost function SignalHeard(): Signal
      reads this`moment, this`since
    {
      if moment == 0 then Signal.Failure else FirstSignal(since, moment - 1).GetOr(Signal.Failure)
    }

    /** What each outcome says of the durable journal. */
    ghost predicate Reported(outcome: Outcome, command: Contracts.Handle)
      reads this
    {
      match outcome
      case Finished(j, receipt) =>
        && durable.body.currentPhase == Phase.Completed && SameLifecycle(j.body, durable.body)
        && CompletedReceipt(gate, durable) == Some(receipt) && SaysTerminal(cfg, durable.body, receipt)
      case Resumable(j, recovery) =>
        && session == durable && j == durable && Valid(gate, j) && j.body.state == State.Recoverable
        && NextPhase(j.body.currentPhase) == Some(recovery.nextPhase)
        && recovery.authority == j.body.authority && recovery.journalDigest == j.digest
        && recovery.runId == request.runId && recovery.command == command
        && (recovery.preservedEvidence <==> |j.body.entries| > 13)
        && j.body.interruption == Some(Interruption(recovery.nextPhase, command, recovery.signal))
      case Thrown(failure) =>
        failure == StorageFailed
        || (failure == JournalRefused && durable.body.currentPhase != Phase.Completed && MarkRefused(command))
      case Unauthorized => true
      case Dead => true
    }

    /** The journal cannot be marked with this command: it is too long for the schema, or
        the marked journal does not pass the JSON gate. */
    ghost predicate MarkRefused(command: Contracts.Handle)
      reads this
    {
      !(1 <= |command| <= MAX_COMMAND)
      || (durable.body.currentPhase != Phase.Completed && exists signal ::
            !gate(JournalContent(
              Interrupted(durable.body, NextPhase(durable.body.currentPhase).value, command, signal))))
    }

    lemma {:induction false} CalmIsUndisturbed()
      requires Calm() && OnTime() && pending.None? && session == durable
      ensures Undisturbed() && Settles()
    {
    }

    /** A process starts with what the journal path holds, and has heard no signal. */
    method Begin()
      requires Inv()
      modifies this`session, this`pending, this`since
      ensures Grown() && session == durable && pending.None? && since == moment && InStep(session)
      ensures Calm() && OnTime() ==> Undisturbed() && Settles()
    {
      hide Valid, Disciplined, Extends, Chained, Calm, Lineage, Faithful, Payloads, Kinds, AllAllowed, Settles,
           OnTimeAt;
      ExtendsReflexive(durable.body);
      session, pending, since := durable, None, moment;
      if Calm() && OnTime() { CalmIsUndisturbed(); }
    }

    /** One process: opens the journal, executes, and turns whatever is thrown into an
        outcome. A fresh journal exposes the boundary of its first phase before anything
        else; a process that dies reports nothing. */
    method RunDurable(created: bool, authority: Option<Digest>, command: Contracts.Handle)
      returns (outcome: Outcome)
      requires Inv()
      modifies this
      ensures Grown() && Reported(outcome, command)
      ensures outcome == Unauthorized <==> authority.Some? && authority.value != old(durable.body.authority)
      ensures session == durable && durable.body.currentPhase == Phase.Completed ==>
        outcome.Finished? || outcome == Dead || outcome == Unauthorized
      ensures commits - old(commits) == |durable.body.entries| - |old(durable.body.entries)|
      ensures old(OnTime()) && Calm() && outcome != Unauthorized ==>
        outcome.Finished? || NothingFollows()
      ensures since == old(moment) && (outcome.Resumable? ==> outcome.recovery.signal == SignalHeard())
      ensures created && events(old(moment)) != Quiet ==>
        log == old(log) && durable.body.entries == old(durable.body.entries)
    {
      hide Valid, Disciplined, Extends, Chained, Calm, Lineage, BooksOf, Faithful, Payloads, Kinds, AllAllowed,
           CompletedReceipt, NextFact, Undisturbed, MarkRefused, NextPhase, Settles, OnTimeAt, FirstSignal,
           SaysTerminal;
      ExtensionsCompose();
      Begin();
      if authority.Some? && authority.value != session.body.authority { return Unauthorized; }
      if created {
        var boundary := Boundary();
        if boundary.Err? {
          if boundary.error == Died { return Dead; }
          outcome := Recover(boundary.error, command);
          return;
        }
      }
      var executed := Execute(session);
      match executed {
        case Ok(finished) => return Finished(finished.0, finished.1);
        case Err(failure) =>
          if failure == Died { return Dead; }
          outcome := Recover(failure, command);
      }
    }

    /** Any schedule of processes over one journal, each resuming where the last one
        stopped, until one of them finishes or the schedule ends. */
    method Campaign(processes: nat, command: Contracts.Handle) returns (outcome: Outcome)
      requires Inv()
      modifies this
      ensures Grown() && Reported(outcome, command)
      ensures durable.body.authority == old(durable.body.authority) && outcome != Unauthorized
      ensures outcome.Finished? ==> commits - old(commits) == 16 - Index(old(durable.body.currentPhase))
      ensures outcome.Resumable? ==> since >= old(moment) && outcome.recovery.signal == SignalHeard()
    {
      hide Valid, Disciplined, Extends, Chained, Answers, Admits, Booked, Proposable, Lineage, BooksOf, Faithful,
           Payloads, Kinds, AllAllowed, CompletedReceipt, SaysTerminal, FirstSignal;
      ExtensionsCompose();
      ExtendsReflexive(durable.body);
      EntriesOfValid(gate, durable);
      ghost var authority := durable.body.authority;
      outcome := Dead;
      for n := 0 to processes
        invariant Grown() && Reported(outcome, command) && outcome != Unauthorized && !outcome.Finished?
        invariant commits - old(commits) == |durable.body.entries| - |old(durable.body.entries)|
        invariant moment >= old(moment)
        invariant outcome.Resumable? ==> since >= old(moment) && outcome.recovery.signal == SignalHeard()
      {
        ExtendsKeepsEntries(old(durable.body), durable.body);
        outcome := RunDurable(false, Some(durable.body.authority), command);
        if outcome.Finished? {
          EntriesOfValid(gate, durable);
          ExtendsKeepsEntries(old(durable.body), durable.body);
          return;
        }
      }
      ExtendsKeepsEntries(old(durable.body), durable.body);
    }

    /** Over every process of the schedule, calls with one key are one and the same call,
        and no cleanup call precedes both durable evidence exports. */
    lemma {:induction false} EffectsAtMostOnce(i: nat, j: nat)
      requires Inv() && i < |log| && j < |log|
      ensures KeyOf(log[i].call).Some? && KeyOf(log[i].call) == KeyOf(log[j].call) ==> log[i] == log[j]
      ensures log[i].call.CallClean? ==>
        log[i].at == 15 && |History()| >= 15
        && History()[13].fact.WorldEvidenceFact? && History()[14].fact.OrganizationEvidenceFact?
      ensures log[i].at <= |History()|
    {
      hide Valid, Disciplined, Chained, Faithful, Payloads, Kinds, KeyOf, CallFor, IsCleanCall;
      assert Allowed(cfg, request, History(), log[i]) && Allowed(cfg, request, History(), log[j]);
      if KeyOf(log[i].call).Some? && KeyOf(log[i].call) == KeyOf(log[j].call) {
        KeyDeterminesCall(cfg, request, History(), log[i], log[j]);
      }
      ChainedIsLinked(cfg, durable.body);
      if log[i].call.CallClean? { CleanupFollowsExports(cfg, request, History(), log[i]); }
    }
  }

  /** Every call a run ever made was made of the receipts committed before it. */
  lemma {:induction false} LoggedCallsAreDerived(run: ComposedRun, i: nat)
    requires run.Inv() && i < |run.log|
    ensures Derived(run.cfg, run.request, run.History(), run.log[i])
  {
    hide Valid, Disciplined, Chained, Faithful, Payloads, Kinds, Derived, Allowed;
    ChainedIsLinked(run.cfg, run.durable.body);
    assert Allowed(run.cfg, run.request, run.History(), run.log[i]);
    CallsAreDerived(run.cfg, run.request, run.History(), run.log[i]);
  }

  /** And what it committed is made of expected receipts. */
  lemma {:induction false} HistoryIsWoven(run: ComposedRun, i: nat)
    requires run.Inv() && i < |run.History()|
    ensures run.History()[i].runId == run.request.runId && WovenAt(run.cfg, run.request, run.History(), i)
  {
    hide Valid, Disciplined, Chained, Faithful, Payloads, Kinds, WovenAt, AllAllowed;
    ChainedIsLinked(run.cfg, run.durable.body);
    LinkedIsWoven(run.cfg, run.request, run.History(), i);
  }

  /** Crash transparency: two schedules of the same run under the same settled answers agree
      on every payload up to cleanup. */
  lemma {:induction false} SchedulesAgree(a: ComposedRun, b: ComposedRun, n: nat)
    requires a.Inv() && b.Inv() && a.Settles() && b.Settles()
    requires a.cfg == b.cfg && a.request == b.request && a.settled == b.settled
    requires n <= |a.History()| && n <= |b.History()| && n <= 16
    ensures a.History()[..n] == b.History()[..n]
  {
    hide Valid, Disciplined, Chained, Faithful, Payloads, Kinds, AllAllowed;
    FaithfulRunsAgree(a.cfg, a.request, a.settled, a.History(), b.History(), n);
  }

  predicate SameButJournalDigest(x: Option<Receipt<TerminalReceiptBody>>, y: Option<Receipt<TerminalReceiptBody>>) {
    x.Some? && y.Some? && x.value.body.(journalDigest := y.value.body.journalDigest) == y.value.body
  }

  /** When both schedules complete, their receipts differ at most in the digest of the
      journal, which names the times of the entries. */
  lemma {:induction false} CompletedSchedulesAgree(a: ComposedRun, b: ComposedRun)
    requires a.Inv() && b.Inv() && a.Settles() && b.Settles()
    requires a.cfg == b.cfg && a.request == b.request && a.settled == b.settled
    requires a.durable.body.currentPhase == Phase.Completed && b.durable.body.currentPhase == Phase.Completed
    ensures SameButJournalDigest(CompletedReceipt(a.gate, a.durable), CompletedReceipt(b.gate, b.durable))
    ensures a.durable.body.entries == b.durable.body.entries ==>
      CompletedReceipt(a.gate, a.durable) == CompletedReceipt(b.gate, b.durable)
  {
    hide Valid, Disciplined, Chained, Faithful, Payloads, Kinds, AllAllowed, TerminalOf, CompletedReceipt;
    EntriesOfValid(a.gate, a.durable);
    EntriesOfValid(b.gate, b.durable);
    var es, fs := a.durable.body.entries[..16], b.durable.body.entries[..16];
    CompletedReceiptFromJournal(a.cfg, a.gate, a.durable);
    CompletedReceiptFromJournal(b.cfg, b.gate, b.durable);
    PayloadsOfPrefix(a.durable.body.entries, 16);
    PayloadsOfPrefix(b.durable.body.entries, 16);
    FaithfulPrefix(a.cfg, a.request, a.settled, a.History(), 16);
    FaithfulPrefix(b.cfg, b.request, b.settled, b.History(), 16);
    CompletedRunsAgree(a.cfg, a.request, a.settled, es, fs);
  }
}
