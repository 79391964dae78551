/** The two worklist passes over the static import graph: the preflight, which checks every
    source and edge it reaches, and the runtime pass over the sources it found. */
module StaticGraph {
  import opened Wrappers

  type File = string

  datatype Kind = ModuleReference | TypeReference | PathReference
  datatype Mode = RuntimeMode | TypeOnly
  datatype Specifier = Specifier(kind: Kind, mode: Mode, text: string)
  datatype Resolution = Found(name: File) | Unresolved | Throws

  /** The adapter of a pass and the parsed sources. `validate` maps a path to the canonical
      name of its source, or refuses it; `admits` stands for the extension check, the read, the
      inspection and the parse of a source. */
  datatype World = World(
    validate: File -> Option<File>,
    admits: File -> bool,
    specifiers: File -> seq<Specifier>,
    pathReferenceAllowed: Specifier -> bool,
    resolve: (Specifier, File) -> Resolution,
    edgeAllowed: (File, File, Specifier) -> bool)

  // ---- reachability ------------------------------------------------------------------------

  predicate Path(next: File -> seq<File>, roots: seq<File>, p: seq<File>) {
    && p != [] && p[0] in roots
    && forall i :: 0 < i < |p| ==> p[i] in next(p[i - 1])
  }

  ghost predicate Reachable(next: File -> seq<File>, roots: seq<File>, t: File) {
    exists p :: Path(next, roots, p) && p[|p| - 1] == t
  }

  lemma {:induction false} RootsAreReachable(next: File -> seq<File>, roots: seq<File>, t: File)
    requires t in roots
    ensures Reachable(next, roots, t)
  {
    assert Path(next, roots, [t]);
  }

  lemma {:induction false} ReachableStep(next: File -> seq<File>, roots: seq<File>, s: File, t: File)
    requires Reachable(next, roots, s) && t in next(s)
    ensures Reachable(next, roots, t)
  {
    var p :| Path(next, roots, p) && p[|p| - 1] == s;
    assert Path(next, roots, p + [t]);
  }

  ghost predicate Closed(next: File -> seq<File>, roots: seq<File>, set_: set<File>) {
    && (forall r :: r in roots ==> r in set_)
    && (forall s, t :: s in set_ && t in next(s) ==> t in set_)
  }

  /** A set with the roots and closed under edges holds everything reachable. */
  lemma {:induction false} ClosedHoldsReachable(next: File -> seq<File>, roots: seq<File>, set_: set<File>, t: File)
    requires Closed(next, roots, set_) && Reachable(next, roots, t)
    ensures t in set_
  {
    var p :| Path(next, roots, p) && p[|p| - 1] == t;
    PathStays(next, roots, set_, p, |p| - 1);
  }

  lemma {:induction false} PathStays(next: File -> seq<File>, roots: seq<File>, set_: set<File>, p: seq<File>, i: nat)
    requires Closed(next, roots, set_) && Path(next, roots, p) && i < |p|
    ensures p[i] in set_
  {
    if i > 0 { PathStays(next, roots, set_, p, i - 1); }
  }

  // ---- the preflight graph -----------------------------------------------------------------

  /** The canonical target of one specifier, if it has one. */
  function TargetOf(w: World, s: File, x: Specifier): Option<File> {
    match w.resolve(x, s)
    case Found(name) => w.validate(name)
    case _ => None
  }

  function TargetsOf(w: World, s: File, xs: seq<Specifier>): (ts: seq<File>)
    ensures forall t :: t in ts <==> exists i :: 0 <= i < |xs| && TargetOf(w, s, xs[i]) == Some(t)
  {
    if xs == [] then []
    else
      var rest := TargetsOf(w, s, xs[1..]);
      assert xs == [xs[0]] + xs[1..];
      match TargetOf(w, s, xs[0])
      case None => rest
      case Some(t) => [t] + rest
  }

  function Targets(w: World): File -> seq<File> { s => TargetsOf(w, s, w.specifiers(s)) }

  function Entries(w: World, entries: seq<File>): (roots: seq<File>)
    ensures forall t :: t in roots <==> exists i :: 0 <= i < |entries| && w.validate(entries[i]) == Some(t)
  {
    if entries == [] then []
    else
      var rest := Entries(w, entries[1..]);
      assert entries == [entries[0]] + entries[1..];
      match w.validate(entries[0])
      case None => rest
      case Some(t) => [t] + rest
  }

  predicate SpecifierOk(w: World, s: File, x: Specifier) {
    && (x.kind == PathReference ==> w.pathReferenceAllowed(x))
    && match w.resolve(x, s)
       case Throws => false
       case Unresolved => true
       case Found(name) => w.validate(name).Some? && w.edgeAllowed(s, w.validate(name).value, x)
  }

  predicate SourceOk(w: World, s: File) {
    w.admits(s) && forall i :: 0 <= i < |w.specifiers(s)| ==> SpecifierOk(w, s, w.specifiers(s)[i])
  }

  /** The validator is idempotent on its results: validating a name it gave gives that name again. */
  ghost predicate Canonical(w: World) {
    forall x :: w.validate(x).Some? ==> w.validate(w.validate(x).value) == w.validate(x)
  }

  ghost predicate Finite(w: World, universe: set<File>) {
    forall x :: w.validate(x).Some? ==> w.validate(x).value in universe
  }

  ghost predicate Reached(w: World, entries: seq<File>, t: File) {
    Reachable(Targets(w), Entries(w, entries), t)
  }

  lemma {:induction false} TargetReached(w: World, entries: seq<File>, s: File, k: nat)
    requires Reached(w, entries, s) && k < |w.specifiers(s)| && TargetOf(w, s, w.specifiers(s)[k]).Some?
    ensures Reached(w, entries, TargetOf(w, s, w.specifiers(s)[k]).value)
  {
    hide Reachable;
    ReachableStep(Targets(w), Entries(w, entries), s, TargetOf(w, s, w.specifiers(s)[k]).value);
  }

  lemma {:induction false} EntryReached(w: World, entries: seq<File>, i: nat)
    requires i < |entries| && w.validate(entries[i]).Some?
    ensures Reached(w, entries, w.validate(entries[i]).value)
  {
    RootsAreReachable(Targets(w), Entries(w, entries), w.validate(entries[i]).value);
  }

  // ---- the preflight loop ---------------------------------------------------------------------

  function SetOf(s: seq<File>): set<File> { set x | x in s }

  ghost predicate NoRepeats<T>(s: seq<T>) { forall i, j :: 0 <= i < j < |s| ==> s[i] != s[j] }

  /** Where the queue stands: the paths before `index` are settled. */
  ghost predicate Progress(w: World, entries: seq<File>, queued: seq<File>, index: nat, checked: seq<File>) {
    && |entries| <= |queued| && index <= |queued| && queued[..|entries|] == entries
    && NoRepeats(checked)
    && (forall i :: |entries| <= i < |queued| ==>
          w.validate(queued[i]) == Some(queued[i]) && Reached(w, entries, queued[i]))
    && (forall i :: 0 <= i < index ==> w.validate(queued[i]).Some? && w.validate(queued[i]).value in checked)
    && (forall s :: s in checked ==> Reached(w, entries, s))
  }

  /** The specifiers of the source up to a position are checked and their targets known. */
  ghost predicate Expanded(w: World, s: File, upTo: nat, queued: seq<File>, checked: seq<File>) {
    forall k :: 0 <= k < upTo && k < |w.specifiers(s)| ==>
      && SpecifierOk(w, s, w.specifiers(s)[k])
      && Known(TargetOf(w, s, w.specifiers(s)[k]), queued, checked)
  }

  predicate Known(t: Option<File>, queued: seq<File>, checked: seq<File>) {
    t.Some? ==> t.value in checked || t.value in queued
  }

  ghost predicate AllExpanded(w: World, done: seq<File>, queued: seq<File>, checked: seq<File>) {
    forall s :: s in done ==> w.admits(s) && Expanded(w, s, |w.specifiers(s)|, queued, checked)
  }

  /** The log of checked edges: each resolved specifier of a finished source once, and those of
      the current one up to a position. */
  ghost predicate EdgesOf(w: World, edges: seq<(File, nat)>, done: seq<File>, current: Option<File>, upTo: nat) {
    && NoRepeats(edges)
    && forall s: File, k: nat :: (s, k) in edges <==>
         && k < |w.specifiers(s)| && TargetOf(w, s, w.specifiers(s)[k]).Some?
         && (s in done || (current == Some(s) && k < upTo))
  }

  lemma {:induction false} ExpandedStays(w: World, s: File, upTo: nat, queued: seq<File>, checked: seq<File>,
                                         moreQueued: seq<File>, moreChecked: seq<File>)
    requires Expanded(w, s, upTo, queued, checked) && queued <= moreQueued && checked <= moreChecked
    ensures Expanded(w, s, upTo, moreQueued, moreChecked)
  {
    hide SpecifierOk, TargetOf;
    forall k | 0 <= k < upTo && k < |w.specifiers(s)|
      ensures Known(TargetOf(w, s, w.specifiers(s)[k]), moreQueued, moreChecked)
    {
      assert Known(TargetOf(w, s, w.specifiers(s)[k]), queued, checked);
    }
  }

  lemma {:induction false} AllExpandedStays(w: World, done: seq<File>, queued: seq<File>, checked: seq<File>,
                                            moreQueued: seq<File>, moreChecked: seq<File>)
    requires AllExpanded(w, done, queued, checked) && queued <= moreQueued && checked <= moreChecked
    ensures AllExpanded(w, done, moreQueued, moreChecked)
  {
    hide Expanded;
    forall s | s in done ensures Expanded(w, s, |w.specifiers(s)|, moreQueued, moreChecked) {
      ExpandedStays(w, s, |w.specifiers(s)|, queued, checked, moreQueued, moreChecked);
    }
  }

  /** The inner loop: checks and resolves each specifier of one source, in order. */
  method ExpandSource(w: World, entries: seq<File>, queued: seq<File>, index: nat, checked: seq<File>, s: File,
                      ghost done: seq<File>, ghost edges: seq<(File, nat)>)
    returns (ok: bool, queue: seq<File>, ghost log: seq<(File, nat)>)
    requires Canonical(w) && Progress(w, entries, queued, index, checked) && s in checked && s !in done
    requires EdgesOf(w, edges, done, None, 0)
    ensures ok ==> Progress(w, entries, queue, index, checked) && queued <= queue
    ensures ok ==> Expanded(w, s, |w.specifiers(s)|, queue, checked)
    ensures ok ==> EdgesOf(w, log, done, Some(s), |w.specifiers(s)|)
    ensures !ok ==> exists k :: 0 <= k < |w.specifiers(s)| && !SpecifierOk(w, s, w.specifiers(s)[k])
  {
    hide Reached;
    queue, log := queued, edges;
    var xs := w.specifiers(s);
    for k := 0 to |xs|
      invariant Progress(w, entries, queue, index, checked) && queued <= queue
      invariant Expanded(w, s, k, queue, checked) && EdgesOf(w, log, done, Some(s), k)
    {
      var x := xs[k];
      if x.kind == PathReference && !w.pathReferenceAllowed(x) {
        assert !SpecifierOk(w, s, xs[k]);
        return false, queue, log;
      }
      match w.resolve(x, s) {
        case Throws =>
          assert !SpecifierOk(w, s, xs[k]);
          return false, queue, log;
        case Unresolved =>
          assert TargetOf(w, s, xs[k]).None? && SpecifierOk(w, s, xs[k]);
        case Found(name) =>
          var target := w.validate(name);
          if target.None? || !w.edgeAllowed(s, target.value, x) {
            assert !SpecifierOk(w, s, xs[k]);
            return false, queue, log;
          }
          assert TargetOf(w, s, xs[k]) == target && SpecifierOk(w, s, xs[k]);
          TargetReached(w, entries, s, k);
          OneMoreEdge(w, log, done, s, k);
          log := log + [(s, k)];
          if target.value !in checked {
            ExpandedStays(w, s, k, queue, checked, queue + [target.value], checked);
            queue := queue + [target.value];
          }
      }
    }
    return true, queue, log;
  }

  lemma {:induction false} OneMoreEdge(w: World, edges: seq<(File, nat)>, done: seq<File>, s: File, k: nat)
    requires EdgesOf(w, edges, done, Some(s), k) && s !in done
    requires k < |w.specifiers(s)| && TargetOf(w, s, w.specifiers(s)[k]).Some?
    ensures EdgesOf(w, edges + [(s, k)], done, Some(s), k + 1)
  {
    hide TargetOf;
    assert (s, k) !in edges;
  }

  lemma {:induction false} StartReached(w: World, entries: seq<File>)
    ensures Progress(w, entries, entries, 0, [])
    ensures AllExpanded(w, [], entries, []) && EdgesOf(w, [], [], None, 0)
  {
    assert entries[..|entries|] == entries;
  }

  lemma {:induction false} SettleNext(w: World, entries: seq<File>, queued: seq<File>, index: nat, checked: seq<File>)
    requires Progress(w, entries, queued, index, checked) && index < |queued| && w.validate(queued[index]).Some?
    requires Canonical(w)
    ensures
      var s := w.validate(queued[index]).value;
      && Reached(w, entries, s)
      && (s in checked ==> Progress(w, entries, queued, index + 1, checked))
      && (s !in checked ==> Progress(w, entries, queued, index + 1, checked + [s]))
  {
    hide Reached;
    if index < |entries| {
      assert queued[index] == queued[..|entries|][index];
      EntryReached(w, entries, index);
    }
  }

  lemma {:induction false} QueuedEntry(w: World, entries: seq<File>, queued: seq<File>, index: nat, checked: seq<File>)
    requires Progress(w, entries, queued, index, checked) && index < |queued| && w.validate(queued[index]).None?
    ensures index < |entries| && entries[index] == queued[index]
  {
    hide Reached;
    assert index < |entries| ==> queued[index] == queued[..|entries|][index];
  }

  /** When the queue is used up, what was checked is closed under the edges. */
  lemma {:induction false} CheckedIsClosed(w: World, entries: seq<File>, queued: seq<File>, checked: seq<File>)
    requires Canonical(w) && Progress(w, entries, queued, |queued|, checked)
    requires AllExpanded(w, checked, queued, checked)
    ensures Closed(Targets(w), Entries(w, entries), SetOf(checked))
  {
    hide Reached, TargetOf, SpecifierOk;
    forall t | t in Entries(w, entries) ensures t in SetOf(checked) {
      var i :| 0 <= i < |entries| && w.validate(entries[i]) == Some(t);
      assert queued[i] == queued[..|entries|][i];
    }
    forall s, t | s in SetOf(checked) && t in Targets(w)(s) ensures t in SetOf(checked) {
      var k :| 0 <= k < |w.specifiers(s)| && TargetOf(w, s, w.specifiers(s)[k]) == Some(t);
      assert Expanded(w, s, |w.specifiers(s)|, queued, checked);
      assert Known(TargetOf(w, s, w.specifiers(s)[k]), queued, checked);
      TargetIsCanonical(w, s, w.specifiers(s)[k]);
      if t in queued {
        var i :| 0 <= i < |queued| && queued[i] == t;
        assert w.validate(queued[i]).value in checked;
      }
    }
  }

  lemma {:induction false} TargetIsCanonical(w: World, s: File, x: Specifier)
    requires Canonical(w) && TargetOf(w, s, x).Some?
    ensures w.validate(TargetOf(w, s, x).value) == TargetOf(w, s, x)
  {
  }

  lemma {:induction false} ExpandedIsOk(w: World, s: File, queued: seq<File>, checked: seq<File>)
    requires w.admits(s) && Expanded(w, s, |w.specifiers(s)|, queued, checked)
    ensures SourceOk(w, s)
  {
    hide SpecifierOk, TargetOf;
  }

  predicate EntriesOk(w: World, entries: seq<File>) {
    forall i :: 0 <= i < |entries| ==> w.validate(entries[i]).Some?
  }

  ghost predicate AllReachedOk(w: World, entries: seq<File>) {
    forall s :: Reached(w, entries, s) ==> SourceOk(w, s)
  }

  /** preflightStaticGraph: succeeds exactly when every entry and everything reachable passes
      its checks, and then returns each reachable source once, having checked each resolved
      edge of each of them once. */
  method Preflight(w: World, entries: seq<File>, ghost universe: set<File>)
    returns (r: Option<seq<File>>, ghost edges: seq<(File, nat)>)
    requires Canonical(w) && Finite(w, universe)
    ensures r.Some? <==> EntriesOk(w, entries) && AllReachedOk(w, entries)
    ensures r.Some? ==> NoRepeats(r.value) && forall s :: s in r.value <==> Reached(w, entries, s)
    ensures r.Some? ==> EdgesOf(w, edges, r.value, None, 0)
  {
    hide Reached, SourceOk, Expanded, Canonical, Progress, AllExpanded, EdgesOf, NoRepeats;
    var queued := entries;
    var checked: seq<File> := [];
    edges := [];
    var index := 0;
    StartReached(w, entries);
    while index < |queued|
      invariant index <= |queued| && Progress(w, entries, queued, index, checked)
      invariant AllExpanded(w, checked, queued, checked) && EdgesOf(w, edges, checked, None, 0)
      invariant SetOf(checked) <= universe
      decreases |universe - SetOf(checked)|, |queued| - index
    {
      var valid := w.validate(queued[index]);
      if valid.None? {
        QueuedEntry(w, entries, queued, index, checked);
        return None, edges;
      }
      var s := valid.value;
      SettleNext(w, entries, queued, index, checked);
      if s !in checked {
        if !w.admits(s) {
          NotAdmitted(w, s);
          return None, edges;
        }
        ghost var before := checked;
        SmallerRest(universe, checked, s);
        checked := checked + [s];
        var ok, queue, log := ExpandSource(w, entries, queued, index + 1, checked, s, before, edges);
        if !ok {
          BadSpecifier(w, s);
          return None, edges;
        }
        AllExpandedStays(w, before, queued, before, queue, checked);
        OneMoreDone(w, before, s, queue, checked, log);
        queued, edges := queue, log;
      }
      index := index + 1;
    }
    Settled(w, entries, queued, checked);
    return Some(checked), edges;
  }

  lemma {:induction false} Settled(w: World, entries: seq<File>, queued: seq<File>, checked: seq<File>)
    requires Canonical(w) && Progress(w, entries, queued, |queued|, checked)
    requires AllExpanded(w, checked, queued, checked)
    ensures EntriesOk(w, entries) && AllReachedOk(w, entries) && NoRepeats(checked)
    ensures forall s :: s in checked <==> Reached(w, entries, s)
  {
    hide Reached, SourceOk, Expanded;
    CheckedIsClosed(w, entries, queued, checked);
    forall s | Reached(w, entries, s) ensures s in checked && SourceOk(w, s) {
      ReachedInClosed(w, entries, SetOf(checked), s);
      ExpandedIsOk(w, s, queued, checked);
    }
    AllSettled(w, entries, queued, checked);
  }

  lemma {:induction false} ReachedInClosed(w: World, entries: seq<File>, held: set<File>, s: File)
    requires Closed(Targets(w), Entries(w, entries), held) && Reached(w, entries, s)
    ensures s in held
  {
    ClosedHoldsReachable(Targets(w), Entries(w, entries), held, s);
  }

  lemma {:induction false} AllSettled(w: World, entries: seq<File>, queued: seq<File>, checked: seq<File>)
    requires Progress(w, entries, queued, |queued|, checked)
    ensures EntriesOk(w, entries)
  {
    hide Reached;
    assert forall i :: 0 <= i < |entries| ==> queued[i] == queued[..|entries|][i];
  }

  lemma {:induction false} NotAdmitted(w: World, s: File)
    requires !w.admits(s)
    ensures !SourceOk(w, s)
  {
  }

  lemma {:induction false} BadSpecifier(w: World, s: File)
    requires exists k :: 0 <= k < |w.specifiers(s)| && !SpecifierOk(w, s, w.specifiers(s)[k])
    ensures !SourceOk(w, s)
  {
    hide SpecifierOk;
  }

  lemma {:induction false} SmallerRest(universe: set<File>, checked: seq<File>, s: File)
    requires s in universe && s !in checked
    ensures |universe - SetOf(checked + [s])| < |universe - SetOf(checked)|
    ensures SetOf(checked) <= universe ==> SetOf(checked + [s]) <= universe
  {
    assert universe - SetOf(checked + [s]) == (universe - SetOf(checked)) - {s};
  }

  lemma {:induction false} OneMoreDone(w: World, before: seq<File>, s: File, queue: seq<File>, checked: seq<File>,
                                       log: seq<(File, nat)>)
    requires checked == before + [s] && w.admits(s) && AllExpanded(w, before, queue, checked)
    requires Expanded(w, s, |w.specifiers(s)|, queue, checked)
    requires EdgesOf(w, log, before, Some(s), |w.specifiers(s)|)
    ensures AllExpanded(w, checked, queue, checked) && EdgesOf(w, log, checked, None, 0)
  {
    hide Expanded, TargetOf;
  }

  // ---- the runtime pass ---------------------------------------------------------------------------

  datatype RuntimeError = NotPreflighted(specifier: Specifier) | ResolverThrew

  /** The runtime target of a specifier, looked up by the resolved name as it is. */
  function RuntimeTargetOf(w: World, sources: map<File, File>, s: File, x: Specifier): Option<File> {
    if x.mode == TypeOnly then None
    else match w.resolve(x, s)
      case Found(name) => if name in sources then Some(sources[name]) else None
      case _ => None
  }

  function RuntimeTargetsOf(w: World, sources: map<File, File>, s: File, xs: seq<Specifier>): (ts: seq<File>)
    ensures forall t :: t in ts <==> exists i :: 0 <= i < |xs| && RuntimeTargetOf(w, sources, s, xs[i]) == Some(t)
  {
    if xs == [] then []
    else
      var rest := RuntimeTargetsOf(w, sources, s, xs[1..]);
      assert xs == [xs[0]] + xs[1..];
      match RuntimeTargetOf(w, sources, s, xs[0])
      case None => rest
      case Some(t) => [t] + rest
  }

  function RuntimeTargets(w: World, sources: map<File, File>): File -> seq<File> {
    s => RuntimeTargetsOf(w, sources, s, w.specifiers(s))
  }

  predicate RuntimeSpecifierOk(w: World, sources: map<File, File>, s: File, x: Specifier) {
    x.mode != TypeOnly ==>
      match w.resolve(x, s)
      case Throws => false
      case Unresolved => true
      case Found(name) => name in sources
  }

  predicate RuntimeOk(w: World, sources: map<File, File>, s: File) {
    forall k :: 0 <= k < |w.specifiers(s)| ==> RuntimeSpecifierOk(w, sources, s, w.specifiers(s)[k])
  }

  ghost predicate RuntimeReached(w: World, sources: map<File, File>, entries: seq<File>, t: File) {
    Reachable(RuntimeTargets(w, sources), entries, t)
  }

  function RuntimeUniverse(sources: map<File, File>, entries: seq<File>): set<File> {
    SetOf(entries) + sources.Values
  }

  ghost predicate AllRuntimeOk(w: World, sources: map<File, File>, entries: seq<File>) {
    forall s :: RuntimeReached(w, sources, entries, s) ==> RuntimeOk(w, sources, s)
  }

  ghost predicate IsRuntimeClosure(w: World, sources: map<File, File>, entries: seq<File>, runtime: set<File>) {
    forall s :: s in runtime <==> RuntimeReached(w, sources, entries, s)
  }

  ghost predicate RuntimeProgress(w: World, sources: map<File, File>, entries: seq<File>, queued: seq<File>,
                                  index: nat, runtime: set<File>)
  {
    && entries <= queued && index <= |queued|
    && (forall i :: 0 <= i < |queued| ==> RuntimeReached(w, sources, entries, queued[i]))
    && (forall i :: 0 <= i < index ==> queued[i] in runtime)
    && (forall s :: s in runtime ==> RuntimeReached(w, sources, entries, s))
  }

  ghost predicate RuntimeExpanded(w: World, sources: map<File, File>, s: File, upTo: nat, queued: seq<File>) {
    forall k :: 0 <= k < upTo && k < |w.specifiers(s)| ==>
      && RuntimeSpecifierOk(w, sources, s, w.specifiers(s)[k])
      && Known(RuntimeTargetOf(w, sources, s, w.specifiers(s)[k]), queued, [])
  }

  ghost predicate AllRuntimeExpanded(w: World, sources: map<File, File>, runtime: set<File>, queued: seq<File>) {
    forall s :: s in runtime ==> RuntimeExpanded(w, sources, s, |w.specifiers(s)|, queued)
  }

  ghost predicate Refuses(w: World, sources: map<File, File>, s: File, error: RuntimeError) {
    exists k :: 0 <= k < |w.specifiers(s)| && RefusesAt(w, sources, s, w.specifiers(s)[k], error)
  }

  predicate RefusesAt(w: World, sources: map<File, File>, s: File, x: Specifier, error: RuntimeError) {
    x.mode != TypeOnly &&
      match w.resolve(x, s)
      case Throws => error == ResolverThrew
      case Unresolved => false
      case Found(name) => name !in sources && error == NotPreflighted(x)
  }

  method ExpandRuntime(w: World, sources: map<File, File>, entries: seq<File>, queued: seq<File>, index: nat,
                       s: File, ghost runtime: set<File>)
    returns (r: Result<seq<File>, RuntimeError>)
    requires RuntimeProgress(w, sources, entries, queued, index, runtime) && s in runtime
    ensures r.Ok? ==>
      && RuntimeProgress(w, sources, entries, r.value, index, runtime) && queued <= r.value
      && RuntimeExpanded(w, sources, s, |w.specifiers(s)|, r.value)
    ensures r.Err? ==> Refuses(w, sources, s, r.error)
  {
    hide RuntimeReached;
    var queue := queued;
    var xs := w.specifiers(s);
    for k := 0 to |xs|
      invariant RuntimeProgress(w, sources, entries, queue, index, runtime) && queued <= queue
      invariant RuntimeExpanded(w, sources, s, k, queue)
    {
      var x := xs[k];
      if x.mode != TypeOnly {
        match w.resolve(x, s) {
          case Throws =>
            assert RefusesAt(w, sources, s, xs[k], ResolverThrew);
            return Err(ResolverThrew);
          case Unresolved => assert RuntimeSpecifierOk(w, sources, s, xs[k]);
          case Found(name) =>
            if name !in sources {
              assert RefusesAt(w, sources, s, xs[k], NotPreflighted(x));
              return Err(NotPreflighted(x));
            }
            assert RuntimeTargetOf(w, sources, s, xs[k]) == Some(sources[name]);
            RuntimeTargetReached(w, sources, entries, s, k);
            RuntimeExpandedStays(w, sources, s, k, queue, queue + [sources[name]]);
            queue := queue + [sources[name]];
        }
      }
    }
    return Ok(queue);
  }

  lemma {:induction false} RuntimeTargetReached(w: World, sources: map<File, File>, entries: seq<File>, s: File, k: nat)
    requires RuntimeReached(w, sources, entries, s) && k < |w.specifiers(s)|
    requires RuntimeTargetOf(w, sources, s, w.specifiers(s)[k]).Some?
    ensures RuntimeReached(w, sources, entries, RuntimeTargetOf(w, sources, s, w.specifiers(s)[k]).value)
  {
    hide Reachable;
    ReachableStep(RuntimeTargets(w, sources), entries, s, RuntimeTargetOf(w, sources, s, w.specifiers(s)[k]).value);
  }

  lemma {:induction false} RuntimeExpandedStays(w: World, sources: map<File, File>, s: File, upTo: nat,
                                                queued: seq<File>, more: seq<File>)
    requires RuntimeExpanded(w, sources, s, upTo, queued) && queued <= more
    ensures RuntimeExpanded(w, sources, s, upTo, more)
  {
    hide RuntimeSpecifierOk, RuntimeTargetOf;
    forall k | 0 <= k < upTo && k < |w.specifiers(s)|
      ensures Known(RuntimeTargetOf(w, sources, s, w.specifiers(s)[k]), more, [])
    {
      assert Known(RuntimeTargetOf(w, sources, s, w.specifiers(s)[k]), queued, []);
    }
  }

  /** preflightStaticRuntimeGraph: the sources reachable by runtime edges, or an error exactly
      when one of them has a runtime specifier that throws or whose name is not a key. */
  method RuntimeGraph(w: World, entries: seq<File>, sources: map<File, File>)
    returns (r: Result<set<File>, RuntimeError>)
    ensures r.Ok? <==> AllRuntimeOk(w, sources, entries)
    ensures r.Ok? ==> IsRuntimeClosure(w, sources, entries, r.value)
    ensures r.Err? ==> exists s :: RuntimeReached(w, sources, entries, s) && Refuses(w, sources, s, r.error)
  {
    hide RuntimeReached, RuntimeExpanded, RuntimeOk, Refuses, RuntimeProgress, AllRuntimeExpanded, AllRuntimeOk,
         IsRuntimeClosure, RuntimeUniverse;
    var runtime: set<File> := {};
    var queued := entries;
    var index := 0;
    ghost var universe := RuntimeUniverse(sources, entries);
    RuntimeStart(w, sources, entries);
    while index < |queued|
      invariant index <= |queued| && RuntimeProgress(w, sources, entries, queued, index, runtime)
      invariant AllRuntimeExpanded(w, sources, runtime, queued) && runtime <= universe
      decreases |universe - runtime|, |queued| - index
    {
      var s := queued[index];
      RuntimeSettle(w, sources, entries, queued, index, runtime);
      if s !in runtime {
        RuntimeReachedInUniverse(w, sources, entries, s);
        OneLessOutside(universe, runtime, s);
        var expanded := ExpandRuntime(w, sources, entries, queued, index + 1, s, runtime + {s});
        if expanded.Err? {
          RefusedIsNotOk(w, sources, entries, s, expanded.error);
          return Err(expanded.error);
        }
        OneMoreRuntime(w, sources, runtime, s, queued, expanded.value);
        runtime, queued := runtime + {s}, expanded.value;
        RuntimeQueueGrew(w, sources, entries, queued, index + 1, runtime);
      }
      index := index + 1;
    }
    RuntimeSettled(w, sources, entries, queued, runtime);
    return Ok(runtime);
  }

  lemma {:induction false} RuntimeQueueGrew(w: World, sources: map<File, File>, entries: seq<File>, queued: seq<File>,
                                            index: nat, runtime: set<File>)
    requires RuntimeProgress(w, sources, entries, queued, index, runtime)
    ensures index <= |queued|
  {
  }

  lemma {:induction false} RuntimeSettle(w: World, sources: map<File, File>, entries: seq<File>, queued: seq<File>,
                                         index: nat, runtime: set<File>)
    requires RuntimeProgress(w, sources, entries, queued, index, runtime) && index < |queued|
    ensures RuntimeReached(w, sources, entries, queued[index])
    ensures RuntimeProgress(w, sources, entries, queued, index + 1, runtime + {queued[index]})
    ensures queued[index] in runtime ==> RuntimeProgress(w, sources, entries, queued, index + 1, runtime)
  {
    hide RuntimeReached;
  }

  lemma {:induction false} OneMoreRuntime(w: World, sources: map<File, File>, runtime: set<File>, s: File,
                                          queued: seq<File>, more: seq<File>)
    requires AllRuntimeExpanded(w, sources, runtime, queued) && queued <= more
    requires RuntimeExpanded(w, sources, s, |w.specifiers(s)|, more)
    ensures AllRuntimeExpanded(w, sources, runtime + {s}, more)
  {
    hide RuntimeExpanded;
    forall t | t in runtime ensures RuntimeExpanded(w, sources, t, |w.specifiers(t)|, more) {
      RuntimeExpandedStays(w, sources, t, |w.specifiers(t)|, queued, more);
    }
  }

  lemma {:induction false} RuntimeSettled(w: World, sources: map<File, File>, entries: seq<File>, queued: seq<File>,
                                          runtime: set<File>)
    requires RuntimeProgress(w, sources, entries, queued, |queued|, runtime)
    requires AllRuntimeExpanded(w, sources, runtime, queued)
    ensures IsRuntimeClosure(w, sources, entries, runtime) && AllRuntimeOk(w, sources, entries)
  {
    hide RuntimeReached, RuntimeExpanded, RuntimeOk;
    RuntimeIsClosed(w, sources, entries, queued, runtime);
    forall s | RuntimeReached(w, sources, entries, s) ensures s in runtime {
      RuntimeInClosed(w, sources, entries, runtime, s);
    }
    forall s | s in runtime ensures RuntimeOk(w, sources, s) {
      assert RuntimeExpanded(w, sources, s, |w.specifiers(s)|, queued);
      RuntimeExpandedIsOk(w, sources, s, queued);
    }
  }

  lemma {:induction false} RuntimeStart(w: World, sources: map<File, File>, entries: seq<File>)
    ensures RuntimeProgress(w, sources, entries, entries, 0, {}) && AllRuntimeExpanded(w, sources, {}, entries)
  {
    forall i | 0 <= i < |entries| ensures RuntimeReached(w, sources, entries, entries[i]) {
      RootsAreReachable(RuntimeTargets(w, sources), entries, entries[i]);
    }
  }

  lemma {:induction false} RuntimeReachedInUniverse(w: World, sources: map<File, File>, entries: seq<File>, s: File)
    requires RuntimeReached(w, sources, entries, s)
    ensures s in RuntimeUniverse(sources, entries)
  {
    var held := SetOf(entries) + sources.Values;
    forall u, t | u in held && t in RuntimeTargets(w, sources)(u) ensures t in held {
      var k :| 0 <= k < |w.specifiers(u)| && RuntimeTargetOf(w, sources, u, w.specifiers(u)[k]) == Some(t);
    }
    ClosedHoldsReachable(RuntimeTargets(w, sources), entries, held, s);
  }

  lemma {:induction false} OneLessOutside(universe: set<File>, held: set<File>, s: File)
    requires s in universe && s !in held
    ensures |universe - (held + {s})| < |universe - held|
  {
    assert universe - (held + {s}) == (universe - held) - {s};
  }

  lemma {:induction false} RefusedIsNotOk(w: World, sources: map<File, File>, entries: seq<File>, s: File,
                                          error: RuntimeError)
    requires RuntimeReached(w, sources, entries, s) && Refuses(w, sources, s, error)
    ensures !AllRuntimeOk(w, sources, entries)
  {
    var k :| 0 <= k < |w.specifiers(s)| && RefusesAt(w, sources, s, w.specifiers(s)[k], error);
    assert !RuntimeSpecifierOk(w, sources, s, w.specifiers(s)[k]);
    assert !RuntimeOk(w, sources, s);
  }

  lemma {:induction false} RuntimeExpandedIsOk(w: World, sources: map<File, File>, s: File, queued: seq<File>)
    requires RuntimeExpanded(w, sources, s, |w.specifiers(s)|, queued)
    ensures RuntimeOk(w, sources, s)
  {
    hide RuntimeSpecifierOk, RuntimeTargetOf;
  }

  lemma {:induction false} RuntimeIsClosed(w: World, sources: map<File, File>, entries: seq<File>,
                                           queued: seq<File>, runtime: set<File>)
    requires RuntimeProgress(w, sources, entries, queued, |queued|, runtime)
    requires AllRuntimeExpanded(w, sources, runtime, queued)
    ensures Closed(RuntimeTargets(w, sources), entries, runtime)
  {
    hide RuntimeReached, RuntimeTargetOf, RuntimeSpecifierOk;
    forall t | t in entries ensures t in runtime {
      var i :| 0 <= i < |entries| && entries[i] == t;
      assert queued[i] == t;
    }
    forall s, t | s in runtime && t in RuntimeTargets(w, sources)(s) ensures t in runtime {
      var k :| 0 <= k < |w.specifiers(s)| && RuntimeTargetOf(w, sources, s, w.specifiers(s)[k]) == Some(t);
      assert RuntimeExpanded(w, sources, s, |w.specifiers(s)|, queued);
      assert Known(RuntimeTargetOf(w, sources, s, w.specifiers(s)[k]), queued, []);
      var i :| 0 <= i < |queued| && queued[i] == t;
    }
  }

  lemma {:induction false} RuntimeInClosed(w: World, sources: map<File, File>, entries: seq<File>,
                                           held: set<File>, s: File)
    requires Closed(RuntimeTargets(w, sources), entries, held) && RuntimeReached(w, sources, entries, s)
    ensures s in held
  {
    ClosedHoldsReachable(RuntimeTargets(w, sources), entries, held, s);
  }

  // ---- the two passes together -----------------------------------------------------------------------

  /** The sources a successful preflight returned, keyed by their names. */
  ghost predicate FromPreflight(w: World, entries: seq<File>, sources: map<File, File>) {
    && EntriesOk(w, entries) && AllReachedOk(w, entries)
    && (forall s :: s in sources <==> Reached(w, entries, s))
    && (forall s :: s in sources ==> sources[s] == s)
  }

  /** The runtime pass stays among the preflighted sources. */
  lemma {:induction false} RuntimeIsSubset(w: World, entries: seq<File>, sources: map<File, File>,
                                           runtimeEntries: seq<File>, s: File)
    requires FromPreflight(w, entries, sources) && RuntimeReached(w, sources, runtimeEntries, s)
    requires forall e :: e in runtimeEntries ==> Reached(w, entries, e)
    ensures s in sources && Reached(w, entries, s)
  {
    hide Reached;
    RuntimeReachedInUniverse(w, sources, runtimeEntries, s);
  }

  /** The resolver names a canonical path at this specifier. */
  predicate NamesCanonically(w: World, s: File, x: Specifier) {
    match w.resolve(x, s)
    case Found(name) => w.validate(name) == Some(name)
    case _ => true
  }

  /** With the preflighted sources the "not preflighted" error occurs exactly when a source that
      the runtime pass reaches has a runtime specifier resolved to a name that is not canonical. */
  lemma {:induction false} RuntimeNeedsCanonicalNames(w: World, entries: seq<File>, sources: map<File, File>,
                                                      runtimeEntries: seq<File>, s: File)
    requires Canonical(w) && FromPreflight(w, entries, sources)
    requires forall e :: e in runtimeEntries ==> Reached(w, entries, e)
    requires RuntimeReached(w, sources, runtimeEntries, s)
    ensures RuntimeOk(w, sources, s) <==>
      forall k :: 0 <= k < |w.specifiers(s)| && w.specifiers(s)[k].mode != TypeOnly ==>
        NamesCanonically(w, s, w.specifiers(s)[k])
  {
    hide Reached, RuntimeReached;
    RuntimeIsSubset(w, entries, sources, runtimeEntries, s);
    forall k | 0 <= k < |w.specifiers(s)| && w.specifiers(s)[k].mode != TypeOnly
      ensures RuntimeSpecifierOk(w, sources, s, w.specifiers(s)[k]) <==> NamesCanonically(w, s, w.specifiers(s)[k])
    {
      KeyExactlyWhenCanonical(w, entries, sources, s, k);
    }
  }

  lemma {:induction false} KeyExactlyWhenCanonical(w: World, entries: seq<File>, sources: map<File, File>,
                                                   s: File, k: nat)
    requires Canonical(w) && FromPreflight(w, entries, sources) && Reached(w, entries, s)
    requires k < |w.specifiers(s)| && w.specifiers(s)[k].mode != TypeOnly
    ensures RuntimeSpecifierOk(w, sources, s, w.specifiers(s)[k]) <==> NamesCanonically(w, s, w.specifiers(s)[k])
  {
    hide Reached;
    var x := w.specifiers(s)[k];
    assert SourceOk(w, s) && SpecifierOk(w, s, x);
    if w.resolve(x, s).Found? {
      var name := w.resolve(x, s).name;
      if w.validate(name) == Some(name) {
        TargetReached(w, entries, s, k);
      }
      if name in sources { ReachedIsCanonical(w, entries, name); }
    }
  }

  lemma {:induction false} ReachedIsCanonical(w: World, entries: seq<File>, t: File)
    requires Canonical(w) && Reached(w, entries, t)
    ensures w.validate(t) == Some(t)
  {
    var p :| Path(Targets(w), Entries(w, entries), p) && p[|p| - 1] == t;
    if |p| == 1 {
      var i :| 0 <= i < |entries| && w.validate(entries[i]) == Some(t);
    } else {
      var s := p[|p| - 2];
      assert t in Targets(w)(s);
      var k :| 0 <= k < |w.specifiers(s)| && TargetOf(w, s, w.specifiers(s)[k]) == Some(t);
    }
  }

  /** So a resolver that names every file as validation does never meets that error. */
  lemma {:induction false} NormalNamesAreKeys(w: World, entries: seq<File>, sources: map<File, File>,
                                              runtimeEntries: seq<File>)
    requires Canonical(w) && FromPreflight(w, entries, sources)
    requires forall e :: e in runtimeEntries ==> Reached(w, entries, e)
    requires forall x, s :: w.resolve(x, s).Found? && w.validate(w.resolve(x, s).name).Some? ==>
      w.validate(w.resolve(x, s).name) == Some(w.resolve(x, s).name)
    ensures AllRuntimeOk(w, sources, runtimeEntries)
  {
    hide Reached, RuntimeReached, RuntimeOk, Canonical;
    forall s | RuntimeReached(w, sources, runtimeEntries, s) ensures RuntimeOk(w, sources, s) {
      RuntimeIsSubset(w, entries, sources, runtimeEntries, s);
      RuntimeNeedsCanonicalNames(w, entries, sources, runtimeEntries, s);
      assert SourceOk(w, s);
      assert forall k :: 0 <= k < |w.specifiers(s)| ==> SpecifierOk(w, s, w.specifiers(s)[k]);
    }
  }

  /** The resolver names what "main" imports with a detour, which validation normalizes away. */
  function DottedWorld(): World {
    World(name =>
            if name == "main" then Some("main")
            else if name == "dir/../target" || name == "target" then Some("target")
            else None,
          _ => true,
          name => if name == "main" then [Specifier(ModuleReference, RuntimeMode, "./dir/../target")] else [],
          _ => true,
          (_, _) => Found("dir/../target"),
          (_, _, _) => true)
  }

  /** There the preflight succeeds and the runtime pass refuses the same import. */
  lemma {:induction false} DottedNameIsNotAKey()
    ensures
      var w := DottedWorld();
      var sources := map["main" := "main", "target" := "target"];
      Canonical(w) && FromPreflight(w, ["main"], sources) && !RuntimeOk(w, sources, "main")
  {
    var w := DottedWorld();
    var sources := map["main" := "main", "target" := "target"];
    var x := Specifier(ModuleReference, RuntimeMode, "./dir/../target");
    assert w.specifiers("main") == [x] && TargetOf(w, "main", x) == Some("target");
    assert ["main"][1..] == [] && Entries(w, ["main"]) == ["main"];
    assert w.specifiers("main")[0] == x;
    assert "target" in Targets(w)("main");
    RootsAreReachable(Targets(w), ["main"], "main");
    ReachableStep(Targets(w), ["main"], "main", "target");
    forall s | Reached(w, ["main"], s) ensures s in sources && SourceOk(w, s) {
      DottedIsClosed(w, s);
    }
    assert !RuntimeSpecifierOk(w, sources, "main", w.specifiers("main")[0]);
  }

  lemma {:induction false} DottedIsClosed(w: World, s: File)
    requires w == DottedWorld() && Reached(w, ["main"], s)
    ensures s == "main" || s == "target"
  {
    var held := {"main", "target"};
    assert ["main"][1..] == [] && Entries(w, ["main"]) == ["main"];
    forall u, t | u in held && t in Targets(w)(u) ensures t in held {
      var k :| 0 <= k < |w.specifiers(u)| && TargetOf(w, u, w.specifiers(u)[k]) == Some(t);
    }
    ClosedHoldsReachable(Targets(w), Entries(w, ["main"]), held, s);
  }
}
