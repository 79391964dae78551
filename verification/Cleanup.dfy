/** Which handles a run owns, which operation may release which of them, and what
    is left after each accepted operation. */
module Cleanup {
  import opened Wrappers
  import opened Text
  import opened Contracts
  import opened Receipts

  const OPERATIONS: seq<CleanupOperation> :=
    [StopWorld, DetachOrganization, DownOrganization, RevokeSecretBindings, CleanupTargetResources]

  // ---- sorted sets and filters of handles ------------------------------------------------

  function Unique(s: seq<Contracts.Handle>): seq<Contracts.Handle> {
    if s == [] then []
    else
      var rest := Unique(s[1..]);
      if s[0] in rest then rest else [s[0]] + rest
  }

  function SortedUniqueOf(s: seq<Contracts.Handle>): seq<Contracts.Handle> { SortByKey(Unique(s), Itself) }

  function Without(s: seq<Contracts.Handle>, gone: seq<Contracts.Handle>): seq<Contracts.Handle> {
    if s == [] then []
    else if s[0] in gone then Without(s[1..], gone)
    else [s[0]] + Without(s[1..], gone)
  }

  ghost predicate NoDuplicates(s: seq<Contracts.Handle>) {
    forall i, j :: 0 <= i < j < |s| ==> s[i] != s[j]
  }

  lemma {:induction false} UniqueElements(s: seq<Contracts.Handle>)
    ensures NoDuplicates(Unique(s))
    ensures forall h :: h in Unique(s) <==> h in s
  {
    if s != [] {
      UniqueElements(s[1..]);
      assert s == [s[0]] + s[1..];
    }
  }

  lemma {:induction false} SortedUniqueElements(s: seq<Contracts.Handle>)
    ensures forall h :: h in SortedUniqueOf(s) <==> h in s
    ensures NoDuplicates(SortedUniqueOf(s))
  {
    hide Unique, SortByKey;
    UniqueElements(s);
    SortElements(Unique(s), Itself);
    SortSorts(Unique(s), Itself);
    SortedIsDistinct(SortedUniqueOf(s), Itself);
  }

  /** Removing handles that are there, each once, loses exactly those handles. */
  lemma {:induction false} WithoutConserves(s: seq<Contracts.Handle>, gone: seq<Contracts.Handle>)
    requires NoDuplicates(s) && NoDuplicates(gone)
    ensures forall h :: h in Without(s, gone) <==> h in s && h !in gone
    ensures NoDuplicates(Without(s, gone))
  {
    if s != [] {
      WithoutConserves(s[1..], gone);
      assert s == [s[0]] + s[1..];
    }
  }

  // ---- ownership -----------------------------------------------------------------------------

  function Handles(o: Ownership): seq<Contracts.Handle> {
    [o.dataNetwork, o.evidenceVolume, o.organizationAttachment, o.organizationHandoff,
     o.secretBindings, o.worldResource, o.worldService]
  }

  predicate DistinctHandles(o: Ownership) {
    var hs := Handles(o);
    forall i, j :: 0 <= i < j < |hs| ==> hs[i] != hs[j]
  }

  function OwnershipDigest(o: Ownership): Digest { Sealed(OwnershipDomain, OwnershipContent(o)) }

  function Targets(o: Ownership, op: CleanupOperation): seq<Contracts.Handle> {
    match op
    case StopWorld => [o.worldService]
    case DetachOrganization => [o.organizationAttachment]
    case DownOrganization => [o.organizationHandoff]
    case RevokeSecretBindings => [o.secretBindings]
    case CleanupTargetResources =>
      SortedUniqueOf([o.dataNetwork, o.evidenceVolume, o.worldResource, o.worldService])
  }

  /** Stopping the world service releases nothing: the service is released with the
      other target resources. */
  function Releasable(o: Ownership, op: CleanupOperation): seq<Contracts.Handle> {
    if op == StopWorld then [] else Targets(o, op)
  }

  function RemainingBefore(o: Ownership, k: nat): seq<Contracts.Handle>
    requires k <= 5
  {
    if k == 0 then SortedUniqueOf(Handles(o))
    else Without(RemainingBefore(o, k - 1), Releasable(o, OPERATIONS[k - 1]))
  }

  function CleanCall(r: Request, requestDigest: Digest, o: Ownership, k: nat): PortCall
    requires k < 5
  {
    CallClean(Key(Clean(OPERATIONS[k]), requestDigest), OPERATIONS[k], RemainingBefore(o, k),
              OwnershipDigest(o), r.runId, Targets(o, OPERATIONS[k]))
  }

  // ---- the operation receipt --------------------------------------------------------------------

  predicate OperationParses(x: Receipt<CleanupOperationBody>) {
    var b := x.body;
    && x.digest == Sealed(CleanupOperationDomain, CleanupOperationContent(b))
    && b.targets == SortedUniqueOf(b.targets) && b.released == SortedUniqueOf(b.released)
    && b.remaining == SortedUniqueOf(b.remaining)
    && (forall i :: 0 <= i < |b.released| ==> b.released[i] in b.targets)
  }

  /** The checks that a receipt must pass before its releases are believed. */
  predicate Correlates(r: Request, o: Ownership, op: CleanupOperation, remaining: seq<Contracts.Handle>,
                       x: Receipt<CleanupOperationBody>)
  {
    var b := x.body;
    && b.runId == r.runId && b.operation == op && b.ownership == OwnershipDigest(o)
    && b.targets == Targets(o, op)
    && (forall i :: 0 <= i < |b.released| ==> b.released[i] in Releasable(o, op))
    && b.remaining == Without(remaining, b.released)
  }

  predicate Finishes(o: Ownership, op: CleanupOperation, x: Receipt<CleanupOperationBody>) {
    x.body.completed && x.body.released == Releasable(o, op)
  }

  /** The whole check of the k-th operation when all before it passed theirs. */
  predicate OperationFits(r: Request, o: Ownership, k: nat, x: Receipt<CleanupOperationBody>)
    requires k < 5
  {
    && OperationParses(x) && Correlates(r, o, OPERATIONS[k], RemainingBefore(o, k), x)
    && Finishes(o, OPERATIONS[k], x)
  }

  predicate OperationsFit(r: Request, o: Ownership, xs: seq<Receipt<CleanupOperationBody>>) {
    |xs| <= 5 && forall k :: 0 <= k < |xs| ==> OperationFits(r, o, k, xs[k])
  }

  function CleanupOf(r: Request, o: Ownership, xs: seq<Receipt<CleanupOperationBody>>): Receipt<CleanupBody> {
    var b := CleanupBody(xs, OwnershipDigest(o), r.runId);
    Receipt(b, Sealed(CleanupDomain, CleanupContent(b)))
  }

  /** parseComposedCleanupReceipt. */
  predicate CleanupParses(x: Receipt<CleanupBody>) {
    && x.digest == Sealed(CleanupDomain, CleanupContent(x.body))
    && |x.body.operations| == 5
    && forall k :: 0 <= k < 5 ==>
         var item := x.body.operations[k];
         && OperationParses(item) && item.body.operation == OPERATIONS[k]
         && item.body.runId == x.body.runId && item.body.ownership == x.body.ownership && item.body.completed
  }

  // ---- conservation -------------------------------------------------------------------------------

  function ReleasedBy(xs: seq<Receipt<CleanupOperationBody>>): multiset<Contracts.Handle> {
    if xs == [] then multiset{} else ReleasedBy(xs[..|xs| - 1]) + multiset(xs[|xs| - 1].body.released)
  }

  /** What the accepted receipts released and what remains partition what was owned. */
  predicate Conserved(o: Ownership, xs: seq<Receipt<CleanupOperationBody>>, remaining: seq<Contracts.Handle>) {
    ReleasedBy(xs) + multiset(remaining) == multiset(SortedUniqueOf(Handles(o)))
  }

  lemma {:induction false} MultiplicityOfDistinct(s: seq<Contracts.Handle>, h: Contracts.Handle)
    requires NoDuplicates(s)
    ensures multiset(s)[h] == if h in s then 1 else 0
  {
    if s != [] {
      assert s == [s[0]] + s[1..];
      MultiplicityOfDistinct(s[1..], h);
    }
  }

  lemma {:induction false} ReleaseConserves(s: seq<Contracts.Handle>, gone: seq<Contracts.Handle>)
    requires NoDuplicates(s) && NoDuplicates(gone) && forall h :: h in gone ==> h in s
    ensures multiset(gone) + multiset(Without(s, gone)) == multiset(s)
  {
    hide Without;
    WithoutConserves(s, gone);
    forall h ensures (multiset(gone) + multiset(Without(s, gone)))[h] == multiset(s)[h] {
      MultiplicityOfDistinct(s, h);
      MultiplicityOfDistinct(gone, h);
      MultiplicityOfDistinct(Without(s, gone), h);
    }
  }

  lemma {:induction false} ReleasableElements(o: Ownership, op: CleanupOperation, h: Contracts.Handle)
    ensures h in Releasable(o, op) <==>
      match op
      case StopWorld => false
      case DetachOrganization => h == o.organizationAttachment
      case DownOrganization => h == o.organizationHandoff
      case RevokeSecretBindings => h == o.secretBindings
      case CleanupTargetResources =>
        h == o.dataNetwork || h == o.evidenceVolume || h == o.worldResource || h == o.worldService
    ensures NoDuplicates(Releasable(o, op))
  {
    hide SortedUniqueOf;
    SortedUniqueElements([o.dataNetwork, o.evidenceVolume, o.worldResource, o.worldService]);
  }

  predicate ReleasedAt(o: Ownership, k: nat, h: Contracts.Handle)
    requires k < 5
  {
    h in Releasable(o, OPERATIONS[k])
  }

  /** Before operation k, what remains is what no operation before it releases. */
  lemma {:induction false} RemainingElements(o: Ownership, k: nat, h: Contracts.Handle)
    requires k <= 5
    ensures NoDuplicates(RemainingBefore(o, k))
    ensures h in RemainingBefore(o, k) <==> h in Handles(o) && forall i :: 0 <= i < k ==> !ReleasedAt(o, i, h)
  {
    hide Releasable, Handles, SortedUniqueOf;
    if k == 0 {
      SortedUniqueElements(Handles(o));
    } else {
      RemainingElements(o, k - 1, h);
      var gone := Releasable(o, OPERATIONS[k - 1]);
      ReleasableElements(o, OPERATIONS[k - 1], h);
      WithoutConserves(RemainingBefore(o, k - 1), gone);
      assert ReleasedAt(o, k - 1, h) <==> h in gone;
    }
  }

  lemma {:induction false} ReleasingOperation(o: Ownership, h: Contracts.Handle) returns (k: nat)
    requires h in Handles(o)
    ensures k < 5 && ReleasedAt(o, k, h)
  {
    k := if h == o.organizationAttachment then 1 else if h == o.organizationHandoff then 2
         else if h == o.secretBindings then 3 else 4;
    ReleasableElements(o, OPERATIONS[k], h);
  }

  /** When all five operations have finished, no owned handle remains: the test after
      the loop never fails. */
  lemma {:induction false} NothingRemains(o: Ownership)
    ensures RemainingBefore(o, 5) == []
  {
    hide RemainingBefore, Releasable;
    var left := RemainingBefore(o, 5);
    assert left != [] ==> left[0] in left;
    if left != [] {
      var h := left[0];
      RemainingElements(o, 5, h);
      var k := ReleasingOperation(o, h);
      assert false;
    }
  }

  /** No operation is asked to release a handle that an earlier one already released. */
  lemma {:induction false} ReleasableRemains(o: Ownership, k: nat, h: Contracts.Handle)
    requires k < 5 && DistinctHandles(o) && h in Releasable(o, OPERATIONS[k])
    ensures h in RemainingBefore(o, k)
  {
    hide RemainingBefore, Releasable;
    RemainingElements(o, k, h);
    ReleasableElements(o, OPERATIONS[k], h);
    var hs := Handles(o);
    assert hs[0] != hs[2] && hs[0] != hs[3] && hs[0] != hs[4] && hs[1] != hs[2] && hs[1] != hs[3] && hs[1] != hs[4]
        && hs[2] != hs[3] && hs[2] != hs[4] && hs[2] != hs[5] && hs[2] != hs[6] && hs[3] != hs[4]
        && hs[3] != hs[5] && hs[3] != hs[6] && hs[4] != hs[5] && hs[4] != hs[6];
    forall i | 0 <= i < k ensures !ReleasedAt(o, i, h) {
      ReleasableElements(o, OPERATIONS[i], h);
    }
  }

  lemma {:induction false} ParsedReleases(x: Receipt<CleanupOperationBody>)
    requires OperationParses(x)
    ensures NoDuplicates(x.body.released)
  {
    SortedUniqueElements(x.body.released);
  }

  lemma {:induction false} ReleasedByLast(xs: seq<Receipt<CleanupOperationBody>>, x: Receipt<CleanupOperationBody>)
    ensures ReleasedBy(xs + [x]) == ReleasedBy(xs) + multiset(x.body.released)
  {
    assert (xs + [x])[..|xs + [x]| - 1] == xs;
  }

  /** One accepted receipt, finished or not, moves handles from remaining to released
      and neither loses nor duplicates one. */
  lemma {:induction false} AcceptedConserves(r: Request, o: Ownership, k: nat, xs: seq<Receipt<CleanupOperationBody>>,
                          x: Receipt<CleanupOperationBody>)
    requires k < 5 && DistinctHandles(o)
    requires Conserved(o, xs, RemainingBefore(o, k))
    requires OperationParses(x) && Correlates(r, o, OPERATIONS[k], RemainingBefore(o, k), x)
    ensures Conserved(o, xs + [x], x.body.remaining)
  {
    hide RemainingBefore, Releasable, OperationParses, DistinctHandles, Targets, Without, ReleasedBy;
    var before := RemainingBefore(o, k);
    forall h | h in x.body.released ensures h in before {
      ReleasableRemains(o, k, h);
    }
    ParsedReleases(x);
    assert NoDuplicates(before) by { RemainingElements(o, k, o.dataNetwork); }
    ReleaseConserves(before, x.body.released);
    ReleasedByLast(xs, x);
  }

  lemma {:induction false} FitConserves(r: Request, o: Ownership, xs: seq<Receipt<CleanupOperationBody>>)
    requires DistinctHandles(o) && OperationsFit(r, o, xs)
    ensures Conserved(o, xs, RemainingBefore(o, |xs|))
  {
    hide DistinctHandles, Releasable, OperationParses, Targets, Conserved;
    if xs == [] {
      assert Conserved(o, [], SortedUniqueOf(Handles(o))) by { NothingReleased(o); }
    } else {
      var k := |xs| - 1;
      var x := xs[k];
      FitConserves(r, o, xs[..k]);
      assert OperationFits(r, o, k, x);
      AcceptedConserves(r, o, k, xs[..k], x);
      assert xs == xs[..k] + [x];
    }
  }

  lemma {:induction false} NothingReleased(o: Ownership)
    ensures Conserved(o, [], SortedUniqueOf(Handles(o)))
  {
    assert ReleasedBy([]) == multiset{};
  }

  /** A cleanup that finishes releases every owned handle exactly once. */
  lemma {:induction false} EachHandleReleasedOnce(r: Request, o: Ownership, xs: seq<Receipt<CleanupOperationBody>>,
                                                  h: Contracts.Handle)
    requires DistinctHandles(o) && OperationsFit(r, o, xs) && |xs| == 5
    ensures ReleasedBy(xs)[h] == if h in Handles(o) then 1 else 0
  {
    hide DistinctHandles, OperationsFit, RemainingBefore, SortedUniqueOf, Handles, ReleasedBy;
    FitConserves(r, o, xs);
    NothingRemains(o);
    SortedUniqueElements(Handles(o));
    MultiplicityOfDistinct(SortedUniqueOf(Handles(o)), h);
    assert multiset(RemainingBefore(o, 5)) == multiset{};
  }

  /** The receipts a stopped cleanup believed: all but the last finished their operation,
      and the last one at least correlates. */
  predicate Believed(r: Request, o: Ownership, xs: seq<Receipt<CleanupOperationBody>>) {
    && |xs| <= 5
    && (xs != [] ==>
          var k := |xs| - 1;
          && OperationsFit(r, o, xs[..k]) && OperationParses(xs[k])
          && Correlates(r, o, OPERATIONS[k], RemainingBefore(o, k), xs[k]))
  }

  /** What a stopped cleanup still names is what no believed receipt released. */
  lemma {:induction false} BelievedConserves(r: Request, o: Ownership, xs: seq<Receipt<CleanupOperationBody>>)
    requires DistinctHandles(o) && Believed(r, o, xs) && xs != []
    ensures Conserved(o, xs, xs[|xs| - 1].body.remaining)
  {
    hide DistinctHandles, Releasable, OperationParses, Targets, Conserved, OperationsFit, Correlates;
    var k := |xs| - 1;
    FitConserves(r, o, xs[..k]);
    AcceptedConserves(r, o, k, xs[..k], xs[k]);
    assert xs == xs[..k] + [xs[k]];
  }

  lemma {:induction false} FitIsBelieved(r: Request, o: Ownership, xs: seq<Receipt<CleanupOperationBody>>)
    requires OperationsFit(r, o, xs)
    ensures Believed(r, o, xs)
  {
    hide OperationParses, Correlates, Finishes;
    if xs != [] {
      assert OperationFits(r, o, |xs| - 1, xs[|xs| - 1]);
    }
  }

  /** A correlating receipt after finished ones is believed, and its own remaining list
      is what is left. */
  lemma {:induction false} BelieveOneMore(r: Request, o: Ownership, xs: seq<Receipt<CleanupOperationBody>>,
                                          x: Receipt<CleanupOperationBody>)
    requires DistinctHandles(o) && |xs| < 5 && OperationsFit(r, o, xs) && OperationParses(x)
    requires Correlates(r, o, OPERATIONS[|xs|], RemainingBefore(o, |xs|), x)
    ensures Believed(r, o, xs + [x])
    ensures Conserved(o, xs + [x], Without(RemainingBefore(o, |xs|), x.body.released))
  {
    hide DistinctHandles, Releasable, OperationParses, Targets, Conserved, OperationsFit;
    var ys := xs + [x];
    assert ys[..|ys| - 1] == xs;
    BelievedConserves(r, o, ys);
  }

  lemma {:induction false} OneMoreFits(r: Request, o: Ownership, k: nat, xs: seq<Receipt<CleanupOperationBody>>,
                                       x: Receipt<CleanupOperationBody>)
    requires k < 5 && |xs| == k && OperationsFit(r, o, xs) && OperationParses(x)
    requires Correlates(r, o, OPERATIONS[k], RemainingBefore(o, k), x) && Finishes(o, OPERATIONS[k], x)
    ensures OperationFits(r, o, k, x) && OperationsFit(r, o, xs + [x])
    ensures Without(RemainingBefore(o, k), x.body.released) == RemainingBefore(o, k + 1)
  {
    hide OperationParses, Correlates, Releasable;
  }

  // ---- what each operation is told and what it must answer, handle by handle ----------------------------

  /** Strictly ascending, so that its elements determine it. */
  ghost predicate Ascends(s: seq<Contracts.Handle>) { forall i, j :: 0 <= i < j < |s| ==> Less(s[i], s[j]) }

  function Elements(s: seq<Contracts.Handle>): set<Contracts.Handle> { set h | h in s }

  /** What an operation acts on. */
  function Acted(o: Ownership, op: CleanupOperation): set<Contracts.Handle> {
    match op
    case StopWorld => {o.worldService}
    case DetachOrganization => {o.organizationAttachment}
    case DownOrganization => {o.organizationHandoff}
    case RevokeSecretBindings => {o.secretBindings}
    case CleanupTargetResources => {o.dataNetwork, o.evidenceVolume, o.worldResource, o.worldService}
  }

  /** What is still owned when the k-th operation comes, and after all of them. */
  function HeldBefore(o: Ownership, k: nat): set<Contracts.Handle> {
    var resources := {o.dataNetwork, o.evidenceVolume, o.worldResource, o.worldService};
    if k <= 1 then resources + {o.organizationAttachment, o.organizationHandoff, o.secretBindings}
    else if k == 2 then resources + {o.organizationHandoff, o.secretBindings}
    else if k == 3 then resources + {o.secretBindings}
    else if k == 4 then resources
    else {}
  }

  lemma {:induction false} SortedUniqueAscends(s: seq<Contracts.Handle>)
    ensures Ascends(SortedUniqueOf(s)) && Elements(SortedUniqueOf(s)) == Elements(s)
  {
    hide Unique, SortByKey, Less;
    UniqueElements(s);
    SortElements(Unique(s), Itself);
    SortSorts(Unique(s), Itself);
    var t := SortedUniqueOf(s);
    forall i, j | 0 <= i < j < |t| ensures Less(t[i], t[j]) { assert Less(Itself(t[i]), Itself(t[j])); }
  }

  lemma {:induction false} TargetsAre(o: Ownership, op: CleanupOperation)
    ensures Ascends(Targets(o, op)) && Elements(Targets(o, op)) == Acted(o, op)
  {
    hide SortedUniqueOf;
    SortedUniqueAscends([o.dataNetwork, o.evidenceVolume, o.worldResource, o.worldService]);
  }

  lemma {:induction false} WithoutAscends(s: seq<Contracts.Handle>, gone: seq<Contracts.Handle>)
    requires Ascends(s)
    ensures Ascends(Without(s, gone)) && forall h :: h in Without(s, gone) ==> h in s
  {
    hide Less;
    if s != [] {
      WithoutAscends(s[1..], gone);
      assert s == [s[0]] + s[1..];
      var rest := Without(s[1..], gone);
      forall i | 0 <= i < |rest| ensures Less(s[0], rest[i]) {
        assert rest[i] in s[1..];
        var j :| 0 <= j < |s[1..]| && s[1..][j] == rest[i];
        assert s[j + 1] == rest[i];
      }
    }
  }

  lemma {:induction false} RemainingAscends(o: Ownership, k: nat)
    requires k <= 5
    ensures Ascends(RemainingBefore(o, k))
  {
    hide Releasable, Handles, SortedUniqueOf;
    if k == 0 {
      SortedUniqueAscends(Handles(o));
    } else {
      RemainingAscends(o, k - 1);
      WithoutAscends(RemainingBefore(o, k - 1), Releasable(o, OPERATIONS[k - 1]));
    }
  }

  lemma {:induction false} HandlesDiffer(o: Ownership)
    requires DistinctHandles(o)
    ensures o.organizationAttachment !in HeldBefore(o, 2) && o.organizationHandoff !in HeldBefore(o, 3)
    ensures o.secretBindings !in HeldBefore(o, 4)
    ensures o.organizationAttachment != o.organizationHandoff && o.organizationAttachment != o.secretBindings
    ensures o.organizationHandoff != o.secretBindings
  {
    var hs := Handles(o);
    assert hs[0] != hs[2] && hs[0] != hs[3] && hs[0] != hs[4] && hs[1] != hs[2] && hs[1] != hs[3] && hs[1] != hs[4]
        && hs[2] != hs[3] && hs[2] != hs[4] && hs[2] != hs[5] && hs[2] != hs[6] && hs[3] != hs[4]
        && hs[3] != hs[5] && hs[3] != hs[6] && hs[4] != hs[5] && hs[4] != hs[6];
  }

  lemma {:induction false} RemainingIs(o: Ownership, k: nat)
    requires k <= 5 && DistinctHandles(o)
    ensures Ascends(RemainingBefore(o, k)) && Elements(RemainingBefore(o, k)) == HeldBefore(o, k)
  {
    hide RemainingBefore, Releasable, DistinctHandles;
    RemainingAscends(o, k);
    HandlesDiffer(o);
    forall h ensures h in RemainingBefore(o, k) <==> h in HeldBefore(o, k) {
      RemainingElements(o, k, h);
      forall i | 0 <= i < k ensures ReleasedAt(o, i, h) <==> i > 0 && h in Acted(o, OPERATIONS[i]) {
        ReleasableElements(o, OPERATIONS[i], h);
      }
      HeldIsNotReleased(o, k, h);
    }
  }

  lemma {:induction false} HeldIsNotReleased(o: Ownership, k: nat, h: Contracts.Handle)
    requires k <= 5 && DistinctHandles(o)
    ensures h in HeldBefore(o, k) <==>
      h in Handles(o) && forall i :: 0 < i < k ==> h !in Acted(o, OPERATIONS[i])
  {
    hide DistinctHandles;
    HandlesDiffer(o);
    assert k > 1 ==> OPERATIONS[1] == DetachOrganization;
    assert k > 2 ==> OPERATIONS[2] == DownOrganization;
    assert k > 3 ==> OPERATIONS[3] == RevokeSecretBindings;
    assert k > 4 ==> OPERATIONS[4] == CleanupTargetResources;
    if h in Handles(o) && h !in HeldBefore(o, k) {
      if h == o.organizationAttachment { assert h in Acted(o, OPERATIONS[1]); }
      else if h == o.organizationHandoff { assert h in Acted(o, OPERATIONS[2]); }
      else if h == o.secretBindings { assert h in Acted(o, OPERATIONS[3]); }
      else { assert h in Acted(o, OPERATIONS[4]); }
    }
  }

  /** The receipt that the k-th operation must come back with. */
  ghost predicate ExpectedOperation(r: Request, o: Ownership, k: nat, x: Receipt<CleanupOperationBody>)
    requires k < 5
  {
    var b := x.body;
    && b == CleanupOperationBody(OPERATIONS[k], Sealed(OwnershipDomain, OwnershipContent(o)), b.released, b.remaining,
                                 r.runId, true, b.targets)
    && x.digest == Sealed(CleanupOperationDomain, CleanupOperationContent(b))
    && Ascends(b.targets) && Elements(b.targets) == Acted(o, OPERATIONS[k])
    && Ascends(b.released) && Elements(b.released) == (if k == 0 then {} else Acted(o, OPERATIONS[k]))
    && Ascends(b.remaining) && Elements(b.remaining) == HeldBefore(o, k + 1)
  }

  lemma {:induction false} AscendingAreEqual(s: seq<Contracts.Handle>, t: seq<Contracts.Handle>)
    requires Ascends(s) && Ascends(t) && Elements(s) == Elements(t)
    ensures s == t
  {
    hide Less;
    forall h: Contracts.Handle ensures h in s <==> h in t {
      assert h in s <==> h in Elements(s);
      assert h in t <==> h in Elements(t);
    }
    forall i, j | 0 <= i < j < |s| ensures Less(Itself(s[i]), Itself(s[j])) { assert Less(s[i], s[j]); }
    forall i, j | 0 <= i < j < |t| ensures Less(Itself(t[i]), Itself(t[j])) { assert Less(t[i], t[j]); }
    SortedUnique(s, t, Itself);
  }

  lemma {:induction false} AscendingIsSorted(s: seq<Contracts.Handle>)
    ensures s == SortedUniqueOf(s) <==> Ascends(s)
  {
    hide SortedUniqueOf, Elements, Ascends;
    SortedUniqueAscends(s);
    if Ascends(s) { AscendingAreEqual(s, SortedUniqueOf(s)); }
  }

  /** The check of an operation that finishes passes exactly for that receipt. */
  lemma {:induction false} OperationExactly(r: Request, o: Ownership, k: nat, x: Receipt<CleanupOperationBody>)
    requires k < 5 && DistinctHandles(o)
    ensures OperationFits(r, o, k, x) <==> ExpectedOperation(r, o, k, x)
  {
    hide DistinctHandles, SortedUniqueOf, Ascends, Elements, HeldBefore, Acted, Targets, Without;
    var b, op := x.body, OPERATIONS[k];
    AscendingIsSorted(b.targets);
    AscendingIsSorted(b.released);
    AscendingIsSorted(b.remaining);
    TargetsAre(o, op);
    assert Without(RemainingBefore(o, k), Releasable(o, op)) == RemainingBefore(o, k + 1);
    RemainingIs(o, k + 1);
    ReleasableIs(o, k);
    if ExpectedOperation(r, o, k, x) {
      AscendingAreEqual(b.targets, Targets(o, op));
      AscendingAreEqual(b.released, Releasable(o, op));
      AscendingAreEqual(b.remaining, RemainingBefore(o, k + 1));
      ReleasedAreTargets(o, k);
    }
  }

  lemma {:induction false} ReleasableIs(o: Ownership, k: nat)
    requires k < 5
    ensures Ascends(Releasable(o, OPERATIONS[k]))
    ensures Elements(Releasable(o, OPERATIONS[k])) == if k == 0 then {} else Acted(o, OPERATIONS[k])
  {
    hide Targets, Acted;
    TargetsAre(o, OPERATIONS[k]);
  }

  lemma {:induction false} ReleasedAreTargets(o: Ownership, k: nat)
    requires k < 5
    ensures forall i :: 0 <= i < |Releasable(o, OPERATIONS[k])| ==>
      Releasable(o, OPERATIONS[k])[i] in Targets(o, OPERATIONS[k])
  {
    hide Targets;
  }
}
