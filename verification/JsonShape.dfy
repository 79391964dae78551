/** Which object graphs the compose check accepts, said without its stack and its counters: fine
    objects in at most 33 levels, none met twice, no more of them than the limit, and the bytes of
    `JsonBytes`. */
module JsonShape {
  import opened Wrappers
  import opened Text
  import opened JsonText
  import opened JsonGate
  import opened JsonBytes

  predicate Shown(d: Descriptor) { d.Data? && d.enumerable }

  /** An object without traps: of a standard prototype, with no more than 256 own properties, each
      enumerable, with a value and under a text; an array has its elements and its length, no more. */
  ghost predicate Fine(n: Node) {
    match n
    case ArrayNode(proxy, plain, length, elements, extras) =>
      && !proxy && plain && length <= 256 && extras == 0
      && (forall k: nat :: k in elements <==> k < length) && forall k :: k in elements ==> Shown(elements[k])
    case ObjectNode(proxy, plain, properties) =>
      && !proxy && plain && |properties| <= 256
      && forall i :: 0 <= i < |properties| ==> properties[i].key.Name? && Shown(properties[i].descriptor)
  }

  /** JSON as deep as there are levels left. */
  ghost predicate Shaped(h: Heap, v: Value, levels: nat)
    decreases levels
  {
    match v
    case Nothing => true
    case Truth(_) => true
    case Chars(_) => true
    case Decimal(n) => n.Some?
    case Unprintable => false
    case Ref(id) =>
      && levels > 0 && Fine(h(id))
      && forall i :: 0 <= i < |Children(h, v)| ==> Shaped(h, Children(h, v)[i], levels - 1)
  }

  /** The objects that a walk down from a value comes upon, once for each way to them. */
  ghost function Objects(h: Heap, v: Value, levels: nat): seq<nat>
    decreases levels, 0
  {
    if v.Ref? && levels > 0 then [v.id] + ObjectsOf(h, Children(h, v), levels - 1) else []
  }

  ghost function ObjectsOf(h: Heap, vs: seq<Value>, levels: nat): seq<nat>
    decreases levels, 1, |vs|
  {
    if vs == [] then []
    else
      var last := |vs| - 1;
      Objects(h, vs[last], levels) + ObjectsOf(h, vs[..last], levels)
  }

  // ---- nodes -----------------------------------------------------------------------------------------

  lemma {:induction false} ElementsFromExactly(n: Node, from: nat)
    requires n.ArrayNode? && from <= n.length
    ensures ElementsFrom(n, from).Some? <==>
      forall k :: from <= k < n.length ==> k in n.elements && Shown(n.elements[k])
    ensures ElementsFrom(n, from).Some? ==>
      forall k :: from <= k < n.length ==> ElementsFrom(n, from).value[k - from] == n.elements[k].value
    decreases n.length - from
  {
    if from < n.length {
      ElementsFromExactly(n, from + 1);
      if ElementsFrom(n, from).Some? {
        var rest := ElementsFrom(n, from + 1).value;
        assert ElementsFrom(n, from).value == [n.elements[from].value] + rest;
      }
    }
  }

  lemma {:induction false} SlotsOfExactly(xs: seq<Property>)
    ensures SlotsOf(xs).Some? <==> forall i :: 0 <= i < |xs| ==> xs[i].key.Name? && Shown(xs[i].descriptor)
    ensures SlotsOf(xs).Some? ==>
      forall i :: 0 <= i < |xs| ==> SlotsOf(xs).value[i] == Slot(xs[i].key.text, xs[i].descriptor.value)
  {
    if xs != [] {
      SlotsOfExactly(xs[1..]);
      assert forall i :: 0 < i < |xs| ==> xs[i] == xs[1..][i - 1];
    }
  }

  function UpTo(n: nat): (r: set<nat>)
    ensures forall k: nat :: k in r <==> k < n
  {
    if n == 0 then {} else UpTo(n - 1) + {n - 1}
  }

  lemma {:induction false} UpToCounts(n: nat)
    ensures |UpTo(n)| == n
  {
    if n > 0 { UpToCounts(n - 1); }
  }

  lemma {:induction false} SubsetCounts(a: set<nat>, b: set<nat>)
    requires a <= b
    ensures |a| <= |b| && (|a| == |b| ==> a == b)
  {
    var rest := b - a;
    assert b == a + rest && a !! rest;
    assert |b| == |a| + |rest|;
    if |rest| == 0 { assert rest == {}; }
  }

  /** An array of so many elements has no others exactly if they are as many as its length. */
  lemma {:induction false} NoOtherKeys(n: Node)
    requires n.ArrayNode? && forall k: nat :: k < n.length ==> k in n.elements
    ensures |n.elements| + n.extras == n.length <==> n.extras == 0 && forall k: nat :: k in n.elements <==> k < n.length
  {
    UpToCounts(n.length);
    assert |n.elements| == |n.elements.Keys|;
    SubsetCounts(UpTo(n.length), n.elements.Keys);
    if forall k: nat :: k in n.elements <==> k < n.length { assert n.elements.Keys == UpTo(n.length); }
  }

  lemma {:induction false} FineExactly(n: Node)
    ensures Below(n).Some? <==> Fine(n)
    ensures Fine(n) && n.ArrayNode? ==>
      |Below(n).value.0| == n.length && forall k :: 0 <= k < n.length ==> Below(n).value.0[k] == n.elements[k].value
    ensures Fine(n) && n.ObjectNode? ==>
      && |Below(n).value.0| == |n.properties|
      && forall i :: 0 <= i < |n.properties| ==> Below(n).value.0[i] == n.properties[i].descriptor.value
  {
    hide ElementsFrom, SlotsOf;
    if n.ArrayNode? { FineArray(n); } else { SlotsOfExactly(n.properties); }
  }

  lemma {:induction false} FineArray(n: Node)
    requires n.ArrayNode?
    ensures Below(n).Some? <==> Fine(n)
    ensures Fine(n) ==>
      |Below(n).value.0| == n.length && forall k :: 0 <= k < n.length ==> Below(n).value.0[k] == n.elements[k].value
  {
    hide ElementsFrom, Below;
    BelowOfArray(n);
    ElementsFromExactly(n, 0);
    assert ElementsFrom(n, 0).Some? <==> forall k: nat :: k < n.length ==> k in n.elements && Shown(n.elements[k]);
    if ElementsFrom(n, 0).Some? { NoOtherKeys(n); }
  }

  lemma {:induction false} BelowOfArray(n: Node)
    requires n.ArrayNode?
    ensures Below(n) ==
      if !n.proxy && n.plain && n.length <= 256 && |n.elements| + n.extras == n.length && ElementsFrom(n, 0).Some?
      then Some((ElementsFrom(n, 0).value, 0)) else None
  {
    hide ElementsFrom;
  }

  // ---- the visit ---------------------------------------------------------------------------------------

  ghost predicate OnceEach(ids: seq<nat>, seen: set<nat>) {
    && (forall i :: 0 <= i < |ids| ==> ids[i] !in seen)
    && forall i, j :: 0 <= i < j < |ids| ==> ids[i] != ids[j]
  }

  function Met(ids: seq<nat>): set<nat> { set id | id in ids }

  lemma {:induction false} OnceEachConcat(a: seq<nat>, b: seq<nat>, seen: set<nat>)
    ensures OnceEach(a + b, seen) <==> OnceEach(a, seen) && OnceEach(b, seen + Met(a))
    ensures Met(a + b) == Met(a) + Met(b)
  {
    var c := a + b;
    assert forall i :: 0 <= i < |a| ==> c[i] == a[i];
    assert forall i :: 0 <= i < |b| ==> c[|a| + i] == b[i];
    if OnceEach(c, seen) {
      forall i | 0 <= i < |b| ensures b[i] !in seen + Met(a) {
        assert c[|a| + i] == b[i];
        forall j | 0 <= j < |a| ensures a[j] != b[i] { assert c[j] != c[|a| + i]; }
      }
      forall i, j | 0 <= i < j < |b| ensures b[i] != b[j] { assert c[|a| + i] != c[|a| + j]; }
    }
    if OnceEach(a, seen) && OnceEach(b, seen + Met(a)) {
      forall i, j | 0 <= i < j < |c| ensures c[i] != c[j] {
        if i < |a| && j >= |a| { assert c[i] in Met(a); }
      }
    }
  }

  /** A visit that never meets a text, and what it has seen at the end. */
  predicate Walks(r: Option<Progress>, shaped: bool, once: bool, ids: seq<nat>, p: Progress) {
    && (r.Some? <==> shaped && once && p.nodes + |ids| <= 4096)
    && (r.Some? ==> r.value == Progress(p.seen + Met(ids), p.nodes + |ids|, p.bytes))
  }

  predicate Silent(v: Value) { v.Chars? ==> v.text == [] }

  /** Every node below has silent children and keys without bytes. */
  ghost predicate SilentHeap(h: Heap) {
    forall id: nat :: Below(h(id)).Some? ==>
      Below(h(id)).value.1 == 0 && forall i :: 0 <= i < |Below(h(id)).value.0| ==> Silent(Below(h(id)).value.0[i])
  }

  lemma {:induction false} ShapeIsSilent(h: Heap)
    ensures SilentHeap(Shape(h))
  {
    hide Below, EmptiedNode;
    forall id: nat | Below(Shape(h)(id)).Some?
      ensures
        && Below(Shape(h)(id)).value.1 == 0
        && forall i :: 0 <= i < |Below(Shape(h)(id)).value.0| ==> Silent(Below(Shape(h)(id)).value.0[i])
    {
      EmptiedBelow(h(id));
    }
  }

  lemma {:induction false} VisitWalks(h: Heap, item: Item, p: Progress)
    requires SilentHeap(h) && Silent(item.value) && item.depth <= 33 && p.nodes <= 4096 && p.bytes == 0
    ensures
      var ids := Objects(h, item.value, 33 - item.depth);
      Walks(Visit(h, item, p), Shaped(h, item.value, 33 - item.depth), OnceEach(ids, p.seen), ids, p)
    decreases 33 - item.depth, 0, 1
  {
    hide VisitAll, Below, OnceEach;
    if item.value.Ref? && item.depth <= 32 {
      RefWalks(h, item, p);
    } else {
      assert Utf8Length([]) == 0;
      NothingMet(p.seen);
    }
  }

  lemma {:induction false} NothingMet(seen: set<nat>)
    ensures OnceEach([], seen) && seen + Met([]) == seen
  {
  }

  lemma {:induction false} RefWalks(h: Heap, item: Item, p: Progress)
    requires SilentHeap(h) && item.value.Ref? && item.depth <= 32 && p.nodes <= 4096 && p.bytes == 0
    ensures
      var ids := Objects(h, item.value, 33 - item.depth);
      Walks(Visit(h, item, p), Shaped(h, item.value, 33 - item.depth), OnceEach(ids, p.seen), ids, p)
    decreases 33 - item.depth, 0, 0
  {
    hide Visit, VisitAll, Below, OnceEach, Fine, ObjectsOf;
    var id, levels := item.value.id, 33 - item.depth;
    FineExactly(h(id));
    var kids := Children(h, item.value);
    var ids := ObjectsOf(h, kids, levels - 1);
    OnceEachConcat([id], ids, p.seen);
    JustOne(id, p.seen);
    var next := Admit(h, item, p);
    if next.Some? {
      assert next.value == (ItemsAt(item.depth + 1, kids), Progress(p.seen + {id}, p.nodes + 1, 0));
      RefVisits(h, item, p);
      VisitAllWalks(h, kids, item.depth + 1, next.value.1, Rank(item) - 1);
      assert p.seen + {id} + Met(ids) == p.seen + Met([id] + ids);
    } else {
      RefusedVisit(h, item, p);
    }
  }

  lemma {:induction false} RefusedVisit(h: Heap, item: Item, p: Progress)
    requires Admit(h, item, p).None?
    ensures Visit(h, item, p).None?
  {
    hide Admit;
  }

  lemma {:induction false} JustOne(id: nat, seen: set<nat>)
    ensures OnceEach([id], seen) <==> id !in seen
    ensures Met([id]) == {id}
  {
    assert [id][0] == id;
  }

  lemma {:induction false} VisitAllWalks(h: Heap, vs: seq<Value>, depth: nat, p: Progress, rank: nat)
    requires SilentHeap(h) && forall i :: 0 <= i < |vs| ==> Silent(vs[i])
    requires 1 <= depth <= 33 && p.nodes <= 4096 && p.bytes == 0 && Ranked(ItemsAt(depth, vs), rank)
    ensures
      var ids := ObjectsOf(h, vs, 33 - depth);
      Walks(VisitAll(h, ItemsAt(depth, vs), p, rank),
            forall i :: 0 <= i < |vs| ==> Shaped(h, vs[i], 33 - depth), OnceEach(ids, p.seen), ids, p)
    decreases 33 - depth, 1, |vs|
  {
    hide Visit, Shaped, Objects, OnceEach, SilentHeap, Walks, Met;
    if vs == [] {
      NothingWalked(p);
    } else {
      var last := |vs| - 1;
      var items := ItemsAt(depth, vs);
      assert items[..last] == ItemsAt(depth, vs[..last]) && items[last] == Item(depth, vs[last]);
      VisitWalks(h, items[last], p);
      var a, b := Objects(h, vs[last], 33 - depth), ObjectsOf(h, vs[..last], 33 - depth);
      var q, r := Visit(h, items[last], p), VisitAll(h, items, p, rank);
      var now, rest := Shaped(h, vs[last], 33 - depth), forall i :: 0 <= i < last ==> Shaped(h, vs[i], 33 - depth);
      if q.Some? {
        WalkedOn(q, now, a, p);
        VisitAllWalks(h, vs[..last], depth, q.value, rank);
        assert rest <==> forall i :: 0 <= i < |vs[..last]| ==> Shaped(h, vs[..last][i], 33 - depth);
      }
      WalksOn(q, r, now, rest, a, b, p);
    }
  }

  lemma {:induction false} NothingWalked(p: Progress)
    requires p.nodes <= 4096
    ensures Walks(Some(p), true, OnceEach([], p.seen), [], p)
  {
    NothingMet(p.seen);
  }

  lemma {:induction false} WalkedOn(q: Option<Progress>, shaped: bool, ids: seq<nat>, p: Progress)
    requires Walks(q, shaped, OnceEach(ids, p.seen), ids, p) && q.Some? && p.bytes == 0
    ensures q.value.nodes <= 4096 && q.value.bytes == 0
  {
  }

  lemma {:induction false} WalksOn(q: Option<Progress>, r: Option<Progress>, now: bool, rest: bool,
                                   a: seq<nat>, b: seq<nat>, p: Progress)
    requires Walks(q, now, OnceEach(a, p.seen), a, p) && (q.None? ==> r.None?)
    requires q.Some? ==> Walks(r, rest, OnceEach(b, q.value.seen), b, q.value)
    ensures Walks(r, now && rest, OnceEach(a + b, p.seen), a + b, p)
  {
    hide OnceEach, Met;
    OnceEachConcat(a, b, p.seen);
    assert p.seen + Met(a) + Met(b) == p.seen + Met(a + b);
  }

  // ---- with texts ----------------------------------------------------------------------------------------

  lemma {:induction false} EmptiedChildren(h: Heap, v: Value)
    ensures Children(Shape(h), Emptied(v)) == EmptiedValues(Children(h, v))
    ensures v.Ref? ==> (Fine(Shape(h)(v.id)) <==> Fine(h(v.id)))
  {
    hide Below, EmptiedNode, Fine;
    if v.Ref? {
      EmptiedBelow(h(v.id));
      FineExactly(h(v.id));
      FineExactly(EmptiedNode(h(v.id)));
    }
  }

  lemma {:induction false} EmptiedShape(h: Heap, v: Value, levels: nat)
    ensures Shaped(Shape(h), Emptied(v), levels) <==> Shaped(h, v, levels)
    ensures Objects(Shape(h), Emptied(v), levels) == Objects(h, v, levels)
    decreases levels, 0, 0
  {
    hide Children, Fine;
    if v.Ref? && levels > 0 {
      EmptiedChildren(h, v);
      var kids := Children(h, v);
      forall i | 0 <= i < |kids|
        ensures Shaped(Shape(h), Emptied(kids[i]), levels - 1) <==> Shaped(h, kids[i], levels - 1)
      {
        EmptiedShape(h, kids[i], levels - 1);
      }
      EmptiedObjects(h, kids, levels - 1);
    }
  }

  lemma {:induction false} EmptiedObjects(h: Heap, vs: seq<Value>, levels: nat)
    ensures ObjectsOf(Shape(h), EmptiedValues(vs), levels) == ObjectsOf(h, vs, levels)
    decreases levels, 1, |vs|
  {
    hide Objects;
    if vs != [] {
      var last := |vs| - 1;
      EmptiedShape(h, vs[last], levels);
      EmptiedObjects(h, vs[..last], levels);
      assert EmptiedValues(vs)[..last] == EmptiedValues(vs[..last]);
    }
  }

  /** The check accepts a value exactly if it is JSON of fine objects in at most 33 levels, comes upon
      no object twice and upon no more than 4096, and if at every string, in the order of the visit, the
      bytes of all strings and keys so far are within the limit. */
  lemma {:induction false} AcceptedGraphs(h: Heap, v: Value)
    ensures Accepted(h, v) <==>
      && Shaped(h, v, 33) && OnceEach(Objects(h, v, 33), {}) && |Objects(h, v, 33)| <= 4096
      && Fits(Amounts(Tree(h, v, 33)), 0)
  {
    hide Visit, Fits, Amounts, Tree, Shaped, Objects, OnceEach, SilentHeap;
    AcceptedExactly(h, v);
    ShapeIsSilent(h);
    VisitWalks(Shape(h), Item(0, Emptied(v)), START);
    EmptiedShape(h, v, 33);
  }

  /** Within the limit means 6,291,456 bytes: a string of ASCII is accepted exactly up to that length. */
  lemma {:induction false} AsciiAccepted(h: Heap, t: Text)
    requires forall k :: 0 <= k < |t| ==> t[k] < 0x80
    ensures Accepted(h, Chars(t)) <==> |t| <= 6_291_456
  {
    AsciiIsOneByteEach(t);
    StringAccepted(h, t);
  }

  /** The ranges of RFC 3629, section 3, for a unit on its own (a lone surrogate is replaced by U+FFFD)
      and for a pair. */
  lemma {:induction false} BytesByRange(c: CodeUnit, d: CodeUnit)
    ensures c <= 0x7F ==> Utf8Length([c]) == 1
    ensures 0x80 <= c <= 0x7FF ==> Utf8Length([c]) == 2
    ensures 0x800 <= c ==> Utf8Length([c]) == 3
    ensures IsHighSurrogate(c) && IsLowSurrogate(d) ==> Utf8Length([c, d]) == 4
  {
    assert Utf8Length([]) == 0 && [c][1..] == [] && [c, d][2..] == [];
  }
}
