/** The explicit-stack check that guards the compose printer, over a graph of
    JavaScript objects that may share, loop, hide properties or be proxies. */
module JsonGate {
  import opened Wrappers
  import opened Text
  import opened JsonText
  import opened CanonicalJson
  import Numbers

  const MAX_DEPTH := 32
  const MAX_NODES := 4096
  const MAX_KEYS := 256
  const MAX_STRING_BYTES := 6_291_456

  /** A JavaScript value; Unprintable is undefined, a function, a symbol or a bigint,
      and a number without a decimal is not finite. */
  datatype Value =
    | Nothing
    | Truth(b: bool)
    | Decimal(n: Option<Numbers.Number>)
    | Chars(text: Text)
    | Ref(id: nat)
    | Unprintable

  datatype Descriptor = Data(enumerable: bool, value: Value) | Accessor
  datatype Key = Name(text: Text) | Symbol
  datatype Property = Property(key: Key, descriptor: Descriptor)

  /** `plain` says that the prototype is one the check allows; `extras` counts the own
      keys of an array beside its length and its elements. */
  datatype Node =
    | ArrayNode(proxy: bool, plain: bool, length: nat, elements: map<nat, Descriptor>, extras: nat)
    | ObjectNode(proxy: bool, plain: bool, properties: seq<Property>)

  type Heap = nat -> Node

  datatype Item = Item(depth: nat, value: Value)
  datatype Progress = Progress(seen: set<nat>, nodes: nat, bytes: nat)
  datatype Slot = Slot(key: Text, value: Value)

  const START := Progress({}, 0, 0)

  // ---- one popped item ------------------------------------------------------------------

  /** Buffer.byteLength in UTF-8; a lone surrogate is written as U+FFFD, three bytes. */
  function Utf8Length(t: Text): nat {
    if t == [] then 0
    else if t[0] < 0x80 then 1 + Utf8Length(t[1..])
    else if t[0] < 0x800 then 2 + Utf8Length(t[1..])
    else if IsHighSurrogate(t[0]) && |t| > 1 && IsLowSurrogate(t[1]) then 4 + Utf8Length(t[2..])
    else 3 + Utf8Length(t[1..])
  }

  predicate Visible(d: Descriptor) { d.Data? && d.enumerable }

  /** The elements from index `from` on, or None if one is missing, hidden or computed. */
  function ElementsFrom(n: Node, from: nat): (r: Option<seq<Value>>)
    requires n.ArrayNode? && from <= n.length
    ensures r.Some? ==> |r.value| == n.length - from
    decreases n.length - from
  {
    if from == n.length then Some([])
    else if from !in n.elements || !Visible(n.elements[from]) then None
    else
      var rest := ElementsFrom(n, from + 1);
      if rest.None? then None else Some([n.elements[from].value] + rest.value)
  }

  function SlotsOf(properties: seq<Property>): (r: Option<seq<Slot>>)
    ensures r.Some? ==> |r.value| == |properties|
  {
    if properties == [] then Some([])
    else if properties[0].key.Symbol? || !Visible(properties[0].descriptor) then None
    else
      var rest := SlotsOf(properties[1..]);
      if rest.None? then None
      else Some([Slot(properties[0].key.text, properties[0].descriptor.value)] + rest.value)
  }

  function KeyBytes(slots: seq<Slot>): nat {
    if slots == [] then 0 else Utf8Length(slots[0].key) + KeyBytes(slots[1..])
  }

  function ItemsAt(depth: nat, values: seq<Value>): (r: seq<Item>)
    ensures |r| == |values| && forall i :: 0 <= i < |r| ==> r[i] == Item(depth, values[i])
  {
    seq(|values|, i requires 0 <= i < |values| => Item(depth, values[i]))
  }

  function SlotValues(slots: seq<Slot>): (r: seq<Value>)
    ensures |r| == |slots| && forall i :: 0 <= i < |r| ==> r[i] == slots[i].value
  {
    seq(|slots|, i requires 0 <= i < |slots| => slots[i].value)
  }

  /** The values below a node and the bytes of its keys, or None if the check throws. */
  function Below(n: Node): Option<(seq<Value>, nat)> {
    if n.proxy || !n.plain then None
    else if n.ArrayNode? then
      if n.length > MAX_KEYS || |n.elements| + n.extras != n.length then None
      else
        var values := ElementsFrom(n, 0);
        if values.None? then None else Some((values.value, 0))
    else if |n.properties| > MAX_KEYS then None
    else
      var slots := SlotsOf(n.properties);
      if slots.None? then None else Some((SlotValues(slots.value), KeyBytes(slots.value)))
  }

  /** What one turn of the loop does with the popped item: throw, or push items and go on.
      Only a popped string tests the byte limit; key bytes are just added. */
  function Admit(h: Heap, item: Item, p: Progress): Option<(seq<Item>, Progress)> {
    match item.value
    case Nothing => Some(([], p))
    case Truth(_) => Some(([], p))
    case Decimal(n) => if n.None? then None else Some(([], p))
    case Chars(t) =>
      var bytes := p.bytes + Utf8Length(t);
      if bytes > MAX_STRING_BYTES then None else Some(([], p.(bytes := bytes)))
    case Unprintable => None
    case Ref(id) =>
      if item.depth > MAX_DEPTH || id in p.seen || p.nodes + 1 > MAX_NODES then None
      else match Below(h(id))
        case None => None
        case Some(below) =>
          Some((ItemsAt(item.depth + 1, below.0),
                Progress(p.seen + {id}, p.nodes + 1, p.bytes + below.1)))
  }

  // ---- the recursive reading --------------------------------------------------------------

  function Rank(item: Item): nat { if item.depth <= MAX_DEPTH then 33 - item.depth else 0 }

  ghost predicate Ranked(items: seq<Item>, rank: nat) {
    forall i :: 0 <= i < |items| ==> Rank(items[i]) <= rank
  }

  /** The item and everything below it, the last child first. */
  ghost function Visit(h: Heap, item: Item, p: Progress): Option<Progress>
    decreases Rank(item), 0, 0
  {
    match Admit(h, item, p)
    case None => None
    case Some(next) =>
      if next.0 == [] then Some(next.1) else VisitAll(h, next.0, next.1, Rank(item) - 1)
  }

  ghost function VisitAll(h: Heap, items: seq<Item>, p: Progress, rank: nat): Option<Progress>
    requires Ranked(items, rank)
    decreases rank, 1, |items|
  {
    if items == [] then Some(p)
    else
      var last := |items| - 1;
      match Visit(h, items[last], p)
      case None => None
      case Some(q) => VisitAll(h, items[..last], q, rank)
  }

  ghost predicate Accepted(h: Heap, v: Value) { Visit(h, Item(0, v), START).Some? }

  /** Popping works through the part pushed last, whole subtrees at a time, before it
      touches what lay below it on the stack. */
  lemma {:induction false} VisitInTurn(h: Heap, a: seq<Item>, b: seq<Item>, p: Progress, rank: nat)
    requires Ranked(a, rank) && Ranked(b, rank)
    ensures Ranked(a + b, rank)
    ensures VisitAll(h, a + b, p, rank) ==
      if VisitAll(h, b, p, rank).None? then None else VisitAll(h, a, VisitAll(h, b, p, rank).value, rank)
    decreases |b|
  {
    hide Visit, Rank;
    if b == [] {
      assert a + b == a;
    } else {
      var last := |b| - 1;
      assert (a + b)[|a + b| - 1] == b[last] && (a + b)[..|a + b| - 1] == a + b[..last];
      var q := Visit(h, b[last], p);
      if q.Some? { VisitInTurn(h, a, b[..last], q.value, rank); }
    }
  }

  lemma {:induction false} RankIsIrrelevant(h: Heap, items: seq<Item>, p: Progress, r: nat, s: nat)
    requires Ranked(items, r) && Ranked(items, s)
    ensures VisitAll(h, items, p, r) == VisitAll(h, items, p, s)
    decreases |items|
  {
    hide Visit, Rank;
    if items != [] {
      var last := |items| - 1;
      var q := Visit(h, items[last], p);
      if q.Some? { RankIsIrrelevant(h, items[..last], q.value, r, s); }
    }
  }

  lemma {:induction false} EverythingRanked(items: seq<Item>)
    ensures Ranked(items, 33)
  {
  }

  /** One turn of the loop computes one step of the recursive reading. */
  lemma {:induction false} OneTurn(h: Heap, rest: seq<Item>, item: Item, p: Progress)
    ensures Ranked(rest + [item], 33)
    ensures VisitAll(h, rest + [item], p, 33) ==
      match Admit(h, item, p)
      case None => None
      case Some(next) => (EverythingRanked(rest + next.0); VisitAll(h, rest + next.0, next.1, 33))
  {
    hide Admit;
    EverythingRanked(rest + [item]);
    EverythingRanked(rest);
    assert (rest + [item])[..|rest|] == rest;
    var next := Admit(h, item, p);
    if next.Some? {
      var kids := next.value.0;
      EverythingRanked(kids);
      VisitInTurn(h, rest, kids, next.value.1, 33);
      if kids == [] {
        assert rest + kids == rest;
      } else {
        KidsRanked(h, item, p);
        RankIsIrrelevant(h, kids, next.value.1, Rank(item) - 1, 33);
      }
    }
  }

  lemma {:induction false} KidsRanked(h: Heap, item: Item, p: Progress)
    requires Admit(h, item, p).Some? && Admit(h, item, p).value.0 != []
    ensures item.depth <= MAX_DEPTH && Ranked(Admit(h, item, p).value.0, Rank(item) - 1)
  {
  }

  /** assertOrdinaryComposedJson: the loop accepts exactly what the recursive reading does. */
  method CheckOrdinary(h: Heap, raw: Value) returns (ok: bool)
    ensures ok <==> Accepted(h, raw)
  {
    hide Admit, Rank;
    var pending := [Item(0, raw)];
    var progress := START;
    EverythingRanked(pending);
    VisitOne(h, Item(0, raw), START);
    while pending != []
      invariant progress.nodes <= MAX_NODES && Ranked(pending, 33)
      invariant Accepted(h, raw) <==> VisitAll(h, pending, progress, 33).Some?
      decreases MAX_NODES - progress.nodes, |pending|
    {
      var item := pending[|pending| - 1];
      var rest := pending[..|pending| - 1];
      assert pending == rest + [item];
      OneTurn(h, rest, item, progress);
      var next := Admit(h, item, progress);
      if next.None? { return false; }
      TurnProgresses(h, item, progress);
      EverythingRanked(rest + next.value.0);
      pending, progress := rest + next.value.0, next.value.1;
    }
    return true;
  }

  lemma {:induction false} VisitOne(h: Heap, item: Item, p: Progress)
    ensures Ranked([item], 33) && VisitAll(h, [item], p, 33) == Visit(h, item, p)
  {
    hide Visit;
    assert [item][..0] == [];
  }

  lemma {:induction false} TurnProgresses(h: Heap, item: Item, p: Progress)
    requires p.nodes <= MAX_NODES && Admit(h, item, p).Some?
    ensures
      var next := Admit(h, item, p).value;
      p.nodes <= next.1.nodes <= MAX_NODES && (next.0 != [] ==> p.nodes < next.1.nodes)
  {
  }

  // ---- acceptance is inherited ---------------------------------------------------------------

  predicate NoMore(a: Progress, b: Progress) {
    a.seen <= b.seen && a.nodes <= b.nodes && a.bytes <= b.bytes
  }

  predicate Shallower(a: seq<Item>, b: seq<Item>) {
    |a| == |b| && forall i :: 0 <= i < |a| ==> a[i].value == b[i].value && a[i].depth <= b[i].depth
  }

  lemma {:induction false} AdmitInherits(h: Heap, a: Item, b: Item, p: Progress, q: Progress)
    requires a.value == b.value && a.depth <= b.depth && NoMore(p, q) && Admit(h, b, q).Some?
    ensures Admit(h, a, p).Some?
    ensures
      var m, n := Admit(h, a, p).value, Admit(h, b, q).value;
      NoMore(m.1, n.1) && Shallower(m.0, n.0) && NoMore(q, n.1)
  {
    hide Below;
  }

  /** With less seen, counted and nested, the same value is accepted again and uses no more. */
  lemma {:induction false} VisitInherits(h: Heap, a: Item, b: Item, p: Progress, q: Progress)
    requires a.value == b.value && a.depth <= b.depth && NoMore(p, q) && Visit(h, b, q).Some?
    ensures Visit(h, a, p).Some? && NoMore(Visit(h, a, p).value, Visit(h, b, q).value)
    ensures NoMore(q, Visit(h, b, q).value)
    decreases Rank(b), 0, 0
  {
    hide Admit;
    AdmitInherits(h, a, b, p, q);
    var m, n := Admit(h, a, p).value, Admit(h, b, q).value;
    if n.0 != [] {
      KidsRanked(h, b, q);
      KidsRanked(h, a, p);
      VisitAllInherits(h, m.0, n.0, m.1, n.1, Rank(a) - 1, Rank(b) - 1);
    }
  }

  lemma {:induction false} VisitAllInherits(h: Heap, a: seq<Item>, b: seq<Item>, p: Progress, q: Progress,
                                            r: nat, s: nat)
    requires Ranked(a, r) && Ranked(b, s) && Shallower(a, b) && NoMore(p, q) && VisitAll(h, b, q, s).Some?
    ensures VisitAll(h, a, p, r).Some? && NoMore(VisitAll(h, a, p, r).value, VisitAll(h, b, q, s).value)
    ensures NoMore(q, VisitAll(h, b, q, s).value)
    decreases s, 1, |b|
  {
    hide Rank, Visit;
    if b != [] {
      var last := |b| - 1;
      assert Rank(b[last]) <= s;
      VisitInherits(h, a[last], b[last], p, q);
      VisitAllInherits(h, a[..last], b[..last], Visit(h, a[last], p).value, Visit(h, b[last], q).value, r, s);
    }
  }

  lemma {:induction false} RestKeeps(h: Heap, items: seq<Item>, p: Progress, rank: nat)
    requires Ranked(items, rank) && VisitAll(h, items, p, rank).Some?
    ensures NoMore(p, VisitAll(h, items, p, rank).value)
  {
    VisitAllInherits(h, items, items, p, p, rank, rank);
  }

  /** Each child was visited, at some point of the walk. */
  lemma {:induction false} ChildVisited(h: Heap, items: seq<Item>, p: Progress, rank: nat, i: nat)
    returns (q: Progress)
    requires Ranked(items, rank) && VisitAll(h, items, p, rank).Some? && i < |items|
    ensures NoMore(p, q) && Visit(h, items[i], q).Some?
    ensures NoMore(Visit(h, items[i], q).value, VisitAll(h, items, p, rank).value)
    decreases |items|
  {
    hide Rank, Visit;
    var last := |items| - 1;
    if i == last {
      q := p;
      RestKeeps(h, items[..last], Visit(h, items[last], p).value, rank);
    } else {
      VisitInherits(h, items[last], items[last], p, p);
      q := ChildVisited(h, items[..last], Visit(h, items[last], p).value, rank, i);
    }
  }

  /** The values one step below. */
  function Children(h: Heap, v: Value): seq<Value> {
    if v.Ref? && Below(h(v.id)).Some? then Below(h(v.id)).value.0 else []
  }

  lemma {:induction false} ChildOfVisited(h: Heap, item: Item, p: Progress, i: nat) returns (q: Progress)
    requires Visit(h, item, p).Some? && i < |Children(h, item.value)|
    ensures item.depth <= MAX_DEPTH && NoMore(p, q)
    ensures Visit(h, Item(item.depth + 1, Children(h, item.value)[i]), q).Some?
    ensures NoMore(Visit(h, Item(item.depth + 1, Children(h, item.value)[i]), q).value, Visit(h, item, p).value)
    ensures item.value.Ref? && item.value.id in q.seen
  {
    hide Below;
    var next := Admit(h, item, p).value;
    KidsRanked(h, item, p);
    assert NoMore(p, next.1);
    q := ChildVisited(h, next.0, next.1, Rank(item) - 1, i);
  }

  /** A value `path` steps below: the child at path[0], and so on. */
  function Along(h: Heap, v: Value, path: seq<nat>): Option<Value>
    decreases |path|
  {
    if path == [] then Some(v)
    else if path[0] < |Children(h, v)| then Along(h, Children(h, v)[path[0]], path[1..])
    else None
  }

  /** Acceptance of the root is acceptance of everything below it, and nothing lies deeper
      than the limit. */
  lemma {:induction false} EverySubvalueIsAccepted(h: Heap, item: Item, p: Progress, path: seq<nat>)
    requires Visit(h, item, p).Some? && Along(h, item.value, path).Some?
    ensures Accepted(h, Along(h, item.value, path).value)
    ensures item.depth + |path| <= MAX_DEPTH + 1 || path == []
    decreases |path|
  {
    hide Visit, Children;
    if path == [] {
      VisitInherits(h, Item(0, item.value), item, START, p);
    } else {
      var q := ChildOfVisited(h, item, p, path[0]);
      EverySubvalueIsAccepted(h, Item(item.depth + 1, Children(h, item.value)[path[0]]), q, path[1..]);
    }
  }

  // ---- nothing is shared -------------------------------------------------------------------------

  /** An object below the item was not seen before the visit and has been after it. */
  lemma {:induction false} ObjectsAreFresh(h: Heap, item: Item, p: Progress, path: seq<nat>, id: nat)
    requires Visit(h, item, p).Some? && Along(h, item.value, path) == Some(Ref(id))
    ensures id !in p.seen && id in Visit(h, item, p).value.seen
    decreases |path|
  {
    hide Visit, Children;
    if path == [] {
      RefIsFresh(h, item, p);
    } else {
      var q := ChildOfVisited(h, item, p, path[0]);
      ObjectsAreFresh(h, Item(item.depth + 1, Children(h, item.value)[path[0]]), q, path[1..], id);
    }
  }

  lemma {:induction false} RefIsFresh(h: Heap, item: Item, p: Progress)
    requires Visit(h, item, p).Some? && item.value.Ref?
    ensures item.value.id !in p.seen && item.value.id in Visit(h, item, p).value.seen
  {
    hide Below;
    var next := Admit(h, item, p).value;
    if next.0 != [] {
      KidsRanked(h, item, p);
      RestKeeps(h, next.0, next.1, Rank(item) - 1);
    }
  }

  /** Of two children the later one is visited first. */
  lemma {:induction false} ChildrenInTurn(h: Heap, items: seq<Item>, p: Progress, rank: nat, i: nat, j: nat)
    returns (q: Progress, r: Progress)
    requires Ranked(items, rank) && VisitAll(h, items, p, rank).Some? && i < j < |items|
    ensures Visit(h, items[i], q).Some? && Visit(h, items[j], r).Some?
    ensures NoMore(Visit(h, items[j], r).value, q)
    decreases |items|
  {
    hide Rank, Visit;
    var last := |items| - 1;
    var next := Visit(h, items[last], p).value;
    if j == last {
      r := p;
      q := ChildVisited(h, items[..last], next, rank, i);
    } else {
      q, r := ChildrenInTurn(h, items[..last], next, rank, i, j);
    }
  }

  lemma {:induction false} SiblingsAreDisjoint(h: Heap, item: Item, p: Progress, i: nat, j: nat,
                                               a: seq<nat>, b: seq<nat>, id: nat)
    requires Visit(h, item, p).Some? && i < j < |Children(h, item.value)|
    ensures !(Along(h, Children(h, item.value)[i], a) == Some(Ref(id))
              && Along(h, Children(h, item.value)[j], b) == Some(Ref(id)))
  {
    hide Below, Along;
    var next := Admit(h, item, p).value;
    KidsRanked(h, item, p);
    var q, r := ChildrenInTurn(h, next.0, next.1, Rank(item) - 1, i, j);
    if Along(h, Children(h, item.value)[i], a) == Some(Ref(id))
       && Along(h, Children(h, item.value)[j], b) == Some(Ref(id)) {
      ObjectsAreFresh(h, next.0[i], q, a, id);
      ObjectsAreFresh(h, next.0[j], r, b, id);
    }
  }

  /** An accepted value reaches no object along two paths: it shares nothing and has no cycle. */
  lemma {:induction false} OnePathToEachObject(h: Heap, item: Item, p: Progress, a: seq<nat>, b: seq<nat>, id: nat)
    requires Visit(h, item, p).Some?
    requires Along(h, item.value, a) == Some(Ref(id)) && Along(h, item.value, b) == Some(Ref(id))
    ensures a == b
    decreases |a|
  {
    hide Visit, Children;
    if a != [] && b != [] {
      if a[0] == b[0] {
        var q := ChildOfVisited(h, item, p, a[0]);
        OnePathToEachObject(h, Item(item.depth + 1, Children(h, item.value)[a[0]]), q, a[1..], b[1..], id);
        assert a == [a[0]] + a[1..] && b == [b[0]] + b[1..];
      } else if a[0] < b[0] {
        SiblingsAreDisjoint(h, item, p, a[0], b[0], a[1..], b[1..], id);
      } else {
        SiblingsAreDisjoint(h, item, p, b[0], a[0], b[1..], a[1..], id);
      }
    } else if a != [] {
      var q := ChildOfVisited(h, item, p, a[0]);
      ObjectsAreFresh(h, Item(item.depth + 1, Children(h, item.value)[a[0]]), q, a[1..], id);
    } else if b != [] {
      var q := ChildOfVisited(h, item, p, b[0]);
      ObjectsAreFresh(h, Item(item.depth + 1, Children(h, item.value)[b[0]]), q, b[1..], id);
    }
  }

  // ---- what the byte limit does and does not count ----------------------------------------------

  lemma {:induction false} OneSlot(h: Heap, id: nat, key: Text, v: Value)
    requires h(id) == ObjectNode(false, true, [Property(Name(key), Data(true, v))])
    ensures Admit(h, Item(0, Ref(id)), START) == Some(([Item(1, v)], Progress({id}, 1, Utf8Length(key))))
  {
    hide Utf8Length;
    var properties, slots := h(id).properties, [Slot(key, v)];
    assert properties[1..] == [] && slots[1..] == [] && [Slot(key, v)] + [] == slots;
    assert SlotsOf(properties[1..]) == Some([]);
    assert SlotsOf(properties) == Some(slots);
    assert KeyBytes(slots[1..]) == 0;
    assert ItemsAt(1, SlotValues(slots)) == [Item(1, v)];
    assert {} + {id} == {id};
  }

  lemma {:induction false} VisitOneKid(h: Heap, item: Item, p: Progress, kid: Item, q: Progress)
    requires Admit(h, item, p) == Some(([kid], q))
    ensures Visit(h, item, p) == Visit(h, kid, q)
  {
    hide Admit;
    hide VisitAll;
    KidsRanked(h, item, p);
    VisitOne(h, kid, q);
    EverythingRanked([kid]);
    RankIsIrrelevant(h, [kid], q, Rank(item) - 1, 33);
  }

  /** A single key is never tested, however long, when no string is popped after it. */
  lemma {:induction false} KeyBytesAreNotTested(h: Heap, id: nat, key: Text)
    requires h(id) == ObjectNode(false, true, [Property(Name(key), Data(true, Nothing))])
    ensures Accepted(h, Ref(id))
    ensures Visit(h, Item(0, Ref(id)), START).value.bytes == Utf8Length(key)
  {
    hide Utf8Length;
    var q := Progress({id}, 1, Utf8Length(key));
    OneSlot(h, id, key, Nothing);
    VisitOneKid(h, Item(0, Ref(id)), START, Item(1, Nothing), q);
    assert Visit(h, Item(1, Nothing), q) == Some(q);
  }

  /** The same key counts in full as soon as a string below it is popped. */
  lemma {:induction false} KeyBytesCountAtTheNextString(h: Heap, id: nat, key: Text, text: Text)
    requires h(id) == ObjectNode(false, true, [Property(Name(key), Data(true, Chars(text)))])
    ensures Accepted(h, Ref(id)) <==> Utf8Length(key) + Utf8Length(text) <= MAX_STRING_BYTES
  {
    hide Utf8Length;
    var q := Progress({id}, 1, Utf8Length(key));
    OneSlot(h, id, key, Chars(text));
    VisitOneKid(h, Item(0, Ref(id)), START, Item(1, Chars(text)), q);
    assert Visit(h, Item(1, Chars(text)), q).Some? <==> q.bytes + Utf8Length(text) <= MAX_STRING_BYTES;
  }

  // ---- the printer that checks at every level ----------------------------------------------------

  function SlotsIn(n: Node): seq<Slot>
    requires n.ObjectNode?
  {
    SlotsOf(n.properties).GetOr([])
  }

  function ElementsIn(n: Node): seq<Value>
    requires n.ArrayNode?
  {
    ElementsFrom(n, 0).GetOr([])
  }

  function SlotKey(s: Slot): Text { s.key }

  /** The JSON value that an accepted value denotes; `room` bounds the levels left. */
  function Tree(h: Heap, v: Value, room: nat): Json
    decreases room, 0
  {
    match v
    case Nothing => Null
    case Truth(b) => Bool(b)
    case Decimal(n) => if n.None? then Null else Num(n.value)
    case Chars(t) => Str(t)
    case Unprintable => Null
    case Ref(id) =>
      if room == 0 then Null
      else if h(id).ArrayNode? then Arr(TreeItems(h, ElementsIn(h(id)), room - 1))
      else Obj(TreeMembers(h, SlotsIn(h(id)), room - 1))
  }

  function TreeItems(h: Heap, values: seq<Value>, room: nat): (r: seq<Json>)
    ensures |r| == |values| && forall i :: 0 <= i < |r| ==> r[i] == Tree(h, values[i], room)
    decreases room, 1, |values|
  {
    if values == [] then [] else [Tree(h, values[0], room)] + TreeItems(h, values[1..], room)
  }

  function TreeMembers(h: Heap, slots: seq<Slot>, room: nat): (r: seq<Member>)
    ensures |r| == |slots|
    ensures forall i :: 0 <= i < |r| ==> r[i] == Member(slots[i].key, Tree(h, slots[i].value, room))
    decreases room, 1, |slots|
  {
    if slots == [] then []
    else [Member(slots[0].key, Tree(h, slots[0].value, room))] + TreeMembers(h, slots[1..], room)
  }

  /** canonicalComposedJson, with the check it repeats on every value; None is a throw. */
  ghost function Canonical(h: Heap, v: Value, room: nat): Option<Text>
    decreases room, 0
  {
    if !Accepted(h, v) then None
    else match v
      case Ref(id) =>
        if room == 0 then None
        else if h(id).ArrayNode? then
          var parts := CanonicalItems(h, ElementsIn(h(id)), room - 1);
          if parts.None? then None else Some([OPEN_BRACKET] + parts.value + [CLOSE_BRACKET])
        else
          var parts := CanonicalSlots(h, SortByKey(SlotsIn(h(id)), SlotKey), room - 1);
          if parts.None? then None else Some([OPEN_BRACE] + parts.value + [CLOSE_BRACE])
      case _ => Some(Print(Tree(h, v, 0)))
  }

  ghost function CanonicalItems(h: Heap, values: seq<Value>, room: nat): Option<Text>
    decreases room, 1, |values|
  {
    if values == [] then Some([])
    else
      var first := Canonical(h, values[0], room);
      if |values| == 1 then first
      else
        var rest := CanonicalItems(h, values[1..], room);
        if first.None? || rest.None? then None else Some(first.value + [COMMA] + rest.value)
  }

  ghost function CanonicalSlots(h: Heap, slots: seq<Slot>, room: nat): Option<Text>
    decreases room, 1, |slots|
  {
    if slots == [] then Some([])
    else
      var value := Canonical(h, slots[0].value, room);
      var first := if value.None? then None else Some(Quote(slots[0].key) + [COLON] + value.value);
      if |slots| == 1 then first
      else
        var rest := CanonicalSlots(h, slots[1..], room);
        if first.None? || rest.None? then None else Some(first.value + [COMMA] + rest.value)
  }

  /** Sorting properties and reading their values commute. */
  lemma {:induction false} SortTreeMembers(h: Heap, slots: seq<Slot>, room: nat)
    ensures TreeMembers(h, SortByKey(slots, SlotKey), room) == SortByKey(TreeMembers(h, slots, room), KeyOf)
    decreases |slots|
  {
    hide Tree;
    if slots != [] {
      SortTreeMembers(h, slots[1..], room);
      InsertTreeMember(h, slots[0], SortByKey(slots[1..], SlotKey), room);
      assert TreeMembers(h, slots, room)[1..] == TreeMembers(h, slots[1..], room);
    }
  }

  lemma {:induction false} InsertTreeMember(h: Heap, x: Slot, slots: seq<Slot>, room: nat)
    ensures TreeMembers(h, Insert(x, slots, SlotKey), room)
            == Insert(Member(x.key, Tree(h, x.value, room)), TreeMembers(h, slots, room), KeyOf)
    decreases |slots|
  {
    hide Tree;
    if slots != [] {
      InsertTreeMember(h, x, slots[1..], room);
      assert TreeMembers(h, slots, room)[1..] == TreeMembers(h, slots[1..], room);
    }
  }

  /** The root check makes every nested check pass, and the text is the canonical text of
      the JSON value the graph denotes. */
  lemma {:induction false} CanonicalOfAccepted(h: Heap, item: Item, p: Progress, room: nat)
    requires Visit(h, item, p).Some? && room + item.depth >= MAX_DEPTH + 1
    ensures Canonical(h, item.value, room) == Some(Composed(Tree(h, item.value, room)))
    decreases room, 0
  {
    hide Visit, Below, Print, SortByKey;
    var v := item.value;
    VisitInherits(h, Item(0, v), item, START, p);
    if v.Ref? {
      RefVisited(h, item, p);
      forall i | 0 <= i < |Children(h, v)|
        ensures Canonical(h, Children(h, v)[i], room - 1) == Some(Composed(Tree(h, Children(h, v)[i], room - 1)))
      {
        var q := ChildOfVisited(h, item, p, i);
        CanonicalOfAccepted(h, Item(item.depth + 1, Children(h, v)[i]), q, room - 1);
      }
      if h(v.id).ArrayNode? {
        CanonicalItemsOfAccepted(h, ElementsIn(h(v.id)), room - 1);
      } else {
        CanonicalObject(h, v.id, room);
      }
    } else {
      ScalarVisited(h, item, p);
    }
  }

  lemma {:induction false} RefVisited(h: Heap, item: Item, p: Progress)
    requires Visit(h, item, p).Some? && item.value.Ref?
    ensures item.depth <= MAX_DEPTH && Below(h(item.value.id)).Some?
    ensures h(item.value.id).ArrayNode? ==> Children(h, item.value) == ElementsIn(h(item.value.id))
  {
    hide ElementsFrom, SlotsOf;
  }

  lemma {:induction false} ScalarVisited(h: Heap, item: Item, p: Progress)
    requires Visit(h, item, p).Some? && !item.value.Ref?
    ensures !item.value.Unprintable?
    ensures forall room :: Tree(h, item.value, room) == Tree(h, item.value, 0)
    ensures Composed(Tree(h, item.value, 0)) == Print(Tree(h, item.value, 0))
  {
    hide Print;
  }

  lemma {:induction false} CanonicalItemsOfAccepted(h: Heap, values: seq<Value>, room: nat)
    requires forall i :: 0 <= i < |values| ==>
      Canonical(h, values[i], room) == Some(Composed(Tree(h, values[i], room)))
    ensures CanonicalItems(h, values, room) == Some(ComposedItems(TreeItems(h, values, room)))
    decreases |values|
  {
    hide Canonical, Composed, Tree;
    if values != [] {
      CanonicalItemsOfAccepted(h, values[1..], room);
      assert TreeItems(h, values, room)[1..] == TreeItems(h, values[1..], room);
    }
  }

  lemma {:induction false} CanonicalSlotsOfAccepted(h: Heap, parent: Json, slots: seq<Slot>, room: nat)
    requires parent.Obj? && forall m :: m in TreeMembers(h, slots, room) ==> m in parent.members
    requires forall i :: 0 <= i < |slots| ==>
      Canonical(h, slots[i].value, room) == Some(Composed(Tree(h, slots[i].value, room)))
    ensures CanonicalSlots(h, slots, room) == Some(ComposedMembers(parent, TreeMembers(h, slots, room)))
    decreases |slots|
  {
    hide Canonical, Composed, Tree, Quote;
    if slots != [] {
      var ms := TreeMembers(h, slots, room);
      assert ms[1..] == TreeMembers(h, slots[1..], room);
      forall m | m in ms[1..] ensures m in parent.members { assert m in ms; }
      CanonicalSlotsOfAccepted(h, parent, slots[1..], room);
    }
  }

  lemma {:induction false} SortedSlotsCanonical(h: Heap, slots: seq<Slot>, room: nat)
    requires forall i :: 0 <= i < |slots| ==>
      Canonical(h, slots[i].value, room) == Some(Composed(Tree(h, slots[i].value, room)))
    ensures
      var sorted := SortByKey(slots, SlotKey);
      forall i :: 0 <= i < |sorted| ==>
        Canonical(h, sorted[i].value, room) == Some(Composed(Tree(h, sorted[i].value, room)))
  {
    hide Composed, Canonical, Tree, SortByKey;
    var sorted := SortByKey(slots, SlotKey);
    SortElements(slots, SlotKey);
    forall i | 0 <= i < |sorted|
      ensures Canonical(h, sorted[i].value, room) == Some(Composed(Tree(h, sorted[i].value, room)))
    {
      assert sorted[i] in slots;
    }
  }

  lemma {:induction false} CanonicalObject(h: Heap, id: nat, room: nat)
    requires room >= 1 && h(id).ObjectNode? && Below(h(id)).Some? && Accepted(h, Ref(id))
    requires forall i :: 0 <= i < |Children(h, Ref(id))| ==>
      Canonical(h, Children(h, Ref(id))[i], room - 1) == Some(Composed(Tree(h, Children(h, Ref(id))[i], room - 1)))
    ensures Canonical(h, Ref(id), room) == Some(Composed(Tree(h, Ref(id), room)))
  {
    hide Composed, Quote, Accepted, SortByKey, CanonicalSlots, ComposedMembers, TreeMembers, KeyBytes, Visible;
    var slots := SlotsIn(h(id));
    var sorted := SortByKey(slots, SlotKey);
    var tree := Obj(TreeMembers(h, slots, room - 1));
    assert Tree(h, Ref(id), room) == tree;
    assert forall i :: 0 <= i < |slots| ==> slots[i].value == Children(h, Ref(id))[i];
    SortedSlotsCanonical(h, slots, room - 1);
    SortElements(tree.members, KeyOf);
    SortTreeMembers(h, slots, room - 1);
    CanonicalSlotsOfAccepted(h, tree, sorted, room - 1);
    ComposedOfObject(tree);
  }

  lemma {:induction false} ComposedOfObject(v: Json)
    requires v.Obj?
    ensures (SortElements(v.members, KeyOf);
             Composed(v) == [OPEN_BRACE] + ComposedMembers(v, SortByKey(v.members, KeyOf)) + [CLOSE_BRACE])
  {
    hide ComposedMembers;
  }

  // ---- what JavaScript itself keeps of an object -------------------------------------------------------

  /** A finite number is one that the standard prints. */
  predicate ValueOk(v: Value) { v.Decimal? && v.n.Some? ==> Numbers.WellFormed(v.n.value) }

  predicate DescriptorOk(d: Descriptor) { d.Data? ==> ValueOk(d.value) }

  /** No object has two properties of one name. */
  predicate NodeOk(n: Node) {
    match n
    case ArrayNode(_, _, _, elements, _) => forall k :: k in elements ==> DescriptorOk(elements[k])
    case ObjectNode(_, _, properties) =>
      && (forall i, j :: 0 <= i < j < |properties| ==> properties[i].key != properties[j].key)
      && forall i :: 0 <= i < |properties| ==> DescriptorOk(properties[i].descriptor)
  }

  ghost predicate HeapOk(h: Heap) { forall id: nat :: NodeOk(h(id)) }

  lemma {:induction false} ElementsAreOk(n: Node, from: nat)
    requires n.ArrayNode? && NodeOk(n) && from <= n.length && ElementsFrom(n, from).Some?
    ensures forall i :: 0 <= i < |ElementsFrom(n, from).value| ==> ValueOk(ElementsFrom(n, from).value[i])
    decreases n.length - from
  {
    if from < n.length { ElementsAreOk(n, from + 1); }
  }

  lemma {:induction false} SlotsAreOk(xs: seq<Property>)
    requires SlotsOf(xs).Some? && forall i :: 0 <= i < |xs| ==> DescriptorOk(xs[i].descriptor)
    ensures forall i :: 0 <= i < |xs| ==>
      Name(SlotsOf(xs).value[i].key) == xs[i].key && ValueOk(SlotsOf(xs).value[i].value)
  {
    if xs != [] { SlotsAreOk(xs[1..]); }
  }

  /** So the value that a graph denotes has no key twice. */
  lemma {:induction false} TreeIsPlain(h: Heap, v: Value, room: nat)
    requires HeapOk(h) && ValueOk(v)
    ensures Plain(Tree(h, v, room))
    decreases room, 0
  {
    hide HeapOk, TreeItems, TreeMembers, ElementsIn, SlotsIn;
    if v.Ref? && room > 0 {
      if h(v.id).ArrayNode? {
        ArrayIsPlain(h, v.id, room);
      } else {
        ObjectIsPlain(h, v.id, room);
      }
    }
  }

  lemma {:induction false} ArrayIsPlain(h: Heap, id: nat, room: nat)
    requires HeapOk(h) && room > 0 && h(id).ArrayNode?
    ensures Plain(Arr(TreeItems(h, ElementsIn(h(id)), room - 1)))
    decreases room - 1, 1
  {
    hide Tree, HeapOk;
    var values := ElementsIn(h(id));
    NodesAreOk(h, id);
    if ElementsFrom(h(id), 0).Some? { ElementsAreOk(h(id), 0); }
    var items := TreeItems(h, values, room - 1);
    forall i | 0 <= i < |items| ensures Plain(items[i]) { TreeIsPlain(h, values[i], room - 1); }
  }

  lemma {:induction false} ObjectIsPlain(h: Heap, id: nat, room: nat)
    requires HeapOk(h) && room > 0 && h(id).ObjectNode?
    ensures Plain(Obj(TreeMembers(h, SlotsIn(h(id)), room - 1)))
    decreases room - 1, 1
  {
    hide Tree, HeapOk;
    var slots := SlotsIn(h(id));
    assert NodeOk(h(id)) by { NodesAreOk(h, id); }
    if SlotsOf(h(id).properties).Some? { SlotsAreOk(h(id).properties); }
    var ms := TreeMembers(h, slots, room - 1);
    forall i | 0 <= i < |ms| ensures Plain(ms[i].value) { TreeIsPlain(h, slots[i].value, room - 1); }
    forall i, j | 0 <= i < j < |ms| ensures ms[i].key != ms[j].key {
      assert h(id).properties[i].key != h(id).properties[j].key;
    }
  }

  lemma {:induction false} NodesAreOk(h: Heap, id: nat)
    requires HeapOk(h)
    ensures NodeOk(h(id))
  {
  }

  /** canonicalComposedJson on an accepted root: no nested check throws, and two accepted
      graphs print the same text exactly when they denote the same value up to the order of
      object keys and the sign of zero. */
  lemma {:induction false} AcceptedGraphsPrintUnambiguously(h: Heap, v: Value, w: Value)
    requires Accepted(h, v) && Accepted(h, w)
    requires HeapOk(h) && ValueOk(v) && ValueOk(w)
    ensures Canonical(h, v, 33).Some? && Canonical(h, w, 33).Some?
    ensures Canonical(h, v, 33) == Canonical(h, w, 33) <==> Equiv(Tree(h, v, 33), Tree(h, w, 33))
  {
    hide Visit, Canonical, Composed, Tree, Equiv, Plain, HeapOk;
    TreeIsPlain(h, v, 33);
    TreeIsPlain(h, w, 33);
    CanonicalOfAccepted(h, Item(0, v), START, 33);
    CanonicalOfAccepted(h, Item(0, w), START, 33);
    ComposedIsUnambiguous(Tree(h, v, 33), Tree(h, w, 33));
  }

  // ---- the secret check -----------------------------------------------------------------------------

  /** No text below is secret-shaped and no key is forbidden. */
  predicate SecretFree(v: Json, forbidden: Text -> bool, secret: Text -> bool)
    decreases v
  {
    match v
    case Str(t) => !secret(t)
    case Arr(items) => forall i :: 0 <= i < |items| ==> SecretFree(items[i], forbidden, secret)
    case Obj(members) =>
      forall i :: 0 <= i < |members| ==>
        !forbidden(members[i].key) && SecretFree(members[i].value, forbidden, secret)
    case _ => true
  }

  function Size(v: Json): (n: nat)
    ensures n >= 1
    decreases v, 0
  {
    match v
    case Arr(items) => 1 + SizeAll(items)
    case Obj(members) => 1 + SizeMembers(members)
    case _ => 1
  }

  function SizeAll(items: seq<Json>): nat
    decreases items, 0
  {
    if items == [] then 0 else SizeAll(items[..|items| - 1]) + Size(items[|items| - 1])
  }

  function SizeMembers(members: seq<Member>): nat
    decreases members, 0
  {
    if members == [] then 0
    else
      var last := members[|members| - 1];
      SizeMembers(members[..|members| - 1]) + Size(last.value)
  }

  function MemberValues(members: seq<Member>): (r: seq<Json>)
    ensures |r| == |members| && forall i :: 0 <= i < |r| ==> r[i] == members[i].value
    ensures SizeAll(r) == SizeMembers(members)
    decreases |members|
  {
    if members == [] then []
    else
      var front := MemberValues(members[..|members| - 1]);
      assert (front + [members[|members| - 1].value])[..|members| - 1] == front;
      front + [members[|members| - 1].value]
  }

  lemma {:induction false} SizeOfConcat(a: seq<Json>, b: seq<Json>)
    ensures SizeAll(a + b) == SizeAll(a) + SizeAll(b)
    decreases |b|
  {
    if b == [] {
      assert a + b == a;
    } else {
      var last := |b| - 1;
      assert (a + b)[|a + b| - 1] == b[last] && (a + b)[..|a + b| - 1] == a + b[..last];
      SizeOfConcat(a, b[..last]);
    }
  }

  predicate AllSecretFree(items: seq<Json>, forbidden: Text -> bool, secret: Text -> bool) {
    forall i :: 0 <= i < |items| ==> SecretFree(items[i], forbidden, secret)
  }

  /** assertSecretFreeComposedJson after the graph check: its own stack loop decides SecretFree. */
  method CheckSecretFree(raw: Json, forbidden: Text -> bool, secret: Text -> bool) returns (ok: bool)
    ensures ok <==> SecretFree(raw, forbidden, secret)
  {
    var pending := [raw];
    while pending != []
      invariant SecretFree(raw, forbidden, secret) <==> AllSecretFree(pending, forbidden, secret)
      decreases SizeAll(pending)
    {
      var v := pending[|pending| - 1];
      var rest := pending[..|pending| - 1];
      assert pending == rest + [v];
      ghost var before := SizeAll(pending);
      assert before == SizeAll(rest) + Size(v);
      match v {
        case Str(t) =>
          if secret(t) { return false; }
          pending := rest;
        case Arr(items) =>
          SizeOfConcat(rest, items);
          PushKeeps(rest, items, v, forbidden, secret);
          pending := rest + items;
        case Obj(members) =>
          for i := 0 to |members|
            invariant forall k :: 0 <= k < i ==> !forbidden(members[k].key)
          {
            if forbidden(members[i].key) { return false; }
          }
          SizeOfConcat(rest, MemberValues(members));
          PushKeeps(rest, MemberValues(members), v, forbidden, secret);
          pending := rest + MemberValues(members);
        case _ => pending := rest;
      }
    }
    return true;
  }

  lemma {:induction false} PushKeeps(rest: seq<Json>, items: seq<Json>, v: Json,
                                     forbidden: Text -> bool, secret: Text -> bool)
    requires SecretFree(v, forbidden, secret) <==> AllSecretFree(items, forbidden, secret)
    ensures AllSecretFree(rest + [v], forbidden, secret) <==> AllSecretFree(rest + items, forbidden, secret)
  {
    hide SecretFree;
    assert forall i :: 0 <= i < |rest| ==> (rest + [v])[i] == rest[i] && (rest + items)[i] == rest[i];
    assert (rest + [v])[|rest|] == v;
    assert forall i :: 0 <= i < |items| ==> (rest + items)[|rest| + i] == items[i];
    if AllSecretFree(rest + items, forbidden, secret) {
      forall i | 0 <= i < |items| ensures SecretFree(items[i], forbidden, secret) {
        assert (rest + items)[|rest| + i] == items[i];
      }
    }
  }
}
