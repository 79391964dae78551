/** What the byte limit of the graph check holds back: bytes in the order in which the check comes
    upon them, with a test at every string and none at a key. */
module JsonBytes {
  import opened Wrappers
  import opened Text
  import opened JsonText
  import opened JsonGate

  // ---- the bytes of a value, in visit order ------------------------------------------------------

  /** The bytes of one string, or of all the keys of one object. */
  datatype Amount = OfString(n: nat) | OfKeys(n: nat)

  function KeysOf(ms: seq<Member>): nat {
    if ms == [] then 0 else Utf8Length(ms[0].key) + KeysOf(ms[1..])
  }

  /** An object's keys come before what is below it, and the last child before the others. */
  function Amounts(v: Json): seq<Amount>
    decreases v, 0
  {
    match v
    case Str(t) => [OfString(Utf8Length(t))]
    case Arr(items) => AmountsOf(items)
    case Obj(ms) => [OfKeys(KeysOf(ms))] + AmountsOfMembers(ms)
    case _ => []
  }

  function AmountsOf(items: seq<Json>): seq<Amount>
    decreases items, 0
  {
    if items == [] then []
    else
      var last := |items| - 1;
      Amounts(items[last]) + AmountsOf(items[..last])
  }

  function AmountsOfMembers(ms: seq<Member>): seq<Amount>
    decreases ms, 0
  {
    if ms == [] then []
    else
      var last := |ms| - 1;
      Amounts(ms[last].value) + AmountsOfMembers(ms[..last])
  }

  function Total(xs: seq<Amount>): nat { if xs == [] then 0 else xs[0].n + Total(xs[1..]) }

  /** Every total up to and with a string is within the limit. */
  predicate Fits(xs: seq<Amount>, before: nat) {
    xs != [] ==> (xs[0].OfString? ==> before + xs[0].n <= MAX_STRING_BYTES) && Fits(xs[1..], before + xs[0].n)
  }

  /** The bytes of the keys that come after the last string. */
  function Trailing(xs: seq<Amount>): nat {
    if xs == [] || xs[|xs| - 1].OfString? then 0 else xs[|xs| - 1].n + Trailing(xs[..|xs| - 1])
  }

  lemma {:induction false} FitsConcat(a: seq<Amount>, b: seq<Amount>, before: nat)
    ensures Total(a + b) == Total(a) + Total(b)
    ensures Fits(a + b, before) <==> Fits(a, before) && Fits(b, before + Total(a))
  {
    if a == [] {
      assert a + b == b;
    } else {
      assert (a + b)[1..] == a[1..] + b;
      FitsConcat(a[1..], b, before + a[0].n);
    }
  }

  /** What fits is over the limit by trailing keys at most. */
  lemma {:induction false} FittingLeavesTrailing(xs: seq<Amount>)
    requires Fits(xs, 0)
    ensures Trailing(xs) <= Total(xs) && Total(xs) - Trailing(xs) <= MAX_STRING_BYTES
  {
    if xs != [] {
      var last := |xs| - 1;
      assert xs == xs[..last] + [xs[last]];
      FitsConcat(xs[..last], [xs[last]], 0);
      assert Total([xs[last]]) == xs[last].n;
      if xs[last].OfString? {
        assert Fits([xs[last]], Total(xs[..last]));
      } else {
        FittingLeavesTrailing(xs[..last]);
      }
    }
  }

  // ---- the same graph without its texts ---------------------------------------------------------------

  function Emptied(v: Value): Value { if v.Chars? then Chars([]) else v }

  function EmptiedDescriptor(d: Descriptor): Descriptor { if d.Data? then d.(value := Emptied(d.value)) else d }

  function EmptiedProperty(x: Property): Property {
    Property(if x.key.Name? then Name([]) else x.key, EmptiedDescriptor(x.descriptor))
  }

  function EmptiedProperties(xs: seq<Property>): (r: seq<Property>)
    ensures |r| == |xs|
  {
    if xs == [] then [] else [EmptiedProperty(xs[0])] + EmptiedProperties(xs[1..])
  }

  function EmptiedNode(n: Node): Node {
    match n
    case ArrayNode(_, _, _, elements, _) =>
      n.(elements := map k | k in elements :: EmptiedDescriptor(elements[k]))
    case ObjectNode(_, _, properties) => n.(properties := EmptiedProperties(properties))
  }

  function Shape(h: Heap): Heap { (id: nat) => EmptiedNode(h(id)) }

  function EmptiedValues(vs: seq<Value>): (r: seq<Value>)
    ensures |r| == |vs| && forall i :: 0 <= i < |r| ==> r[i] == Emptied(vs[i])
  {
    seq(|vs|, i requires 0 <= i < |vs| => Emptied(vs[i]))
  }

  function EmptiedItems(items: seq<Item>): (r: seq<Item>)
    ensures |r| == |items| && forall i :: 0 <= i < |r| ==> r[i] == Item(items[i].depth, Emptied(items[i].value))
  {
    seq(|items|, i requires 0 <= i < |items| => Item(items[i].depth, Emptied(items[i].value)))
  }

  lemma {:induction false} EmptiedElements(n: Node, from: nat)
    requires n.ArrayNode? && from <= n.length
    ensures
      var r, s := ElementsFrom(n, from), ElementsFrom(EmptiedNode(n), from);
      && (r.Some? <==> s.Some?) && (r.Some? ==> s.value == EmptiedValues(r.value))
    decreases n.length - from
  {
    if from < n.length { EmptiedElements(n, from + 1); }
  }

  lemma {:induction false} EmptiedSlots(xs: seq<Property>)
    ensures
      var r, s := SlotsOf(xs), SlotsOf(EmptiedProperties(xs));
      && (r.Some? <==> s.Some?)
      && (r.Some? ==> SlotValues(s.value) == EmptiedValues(SlotValues(r.value)) && KeyBytes(s.value) == 0)
  {
    if xs != [] {
      EmptiedSlots(xs[1..]);
      assert EmptiedProperties(xs)[1..] == EmptiedProperties(xs[1..]);
      assert Utf8Length([]) == 0;
      var r := SlotsOf(xs);
      if r.Some? {
        var s := SlotsOf(EmptiedProperties(xs)).value;
        assert s[1..] == SlotsOf(EmptiedProperties(xs[1..])).value && s[0].key == [];
        assert r.value[1..] == SlotsOf(xs[1..]).value;
        assert SlotValues(r.value) == [r.value[0].value] + SlotValues(r.value[1..]);
        assert SlotValues(s) == [s[0].value] + SlotValues(s[1..]);
      }
    }
  }

  /** A node without its texts has the same children, emptied, and no key bytes. */
  lemma {:induction false} EmptiedBelow(n: Node)
    ensures
      var r, s := Below(n), Below(EmptiedNode(n));
      && (r.Some? <==> s.Some?) && (r.Some? ==> s.value == (EmptiedValues(r.value.0), 0))
  {
    hide ElementsFrom, SlotsOf, EmptiedProperties;
    if n.ArrayNode? {
      assert EmptiedNode(n).elements.Keys == n.elements.Keys;
      assert |EmptiedNode(n).elements| == |n.elements| by {
        assert |EmptiedNode(n).elements.Keys| == |n.elements.Keys|;
      }
      if n.length <= MAX_KEYS { EmptiedElements(n, 0); }
    } else {
      EmptiedSlots(n.properties);
    }
  }

  // ---- the trees below a node --------------------------------------------------------------------------

  lemma {:induction false} MembersAmount(h: Heap, slots: seq<Slot>, room: nat)
    ensures AmountsOfMembers(TreeMembers(h, slots, room)) == AmountsOf(TreeItems(h, SlotValues(slots), room))
    ensures KeysOf(TreeMembers(h, slots, room)) == KeyBytes(slots)
    decreases |slots|
  {
    hide Tree, Amounts, Utf8Length;
    KeysAmount(h, slots, room);
    if slots != [] {
      var last := |slots| - 1;
      MembersAmount(h, slots[..last], room);
      var ms := TreeMembers(h, slots, room);
      assert ms[..last] == TreeMembers(h, slots[..last], room);
      var items := TreeItems(h, SlotValues(slots), room);
      assert items[..last] == TreeItems(h, SlotValues(slots[..last]), room);
      assert items[last] == ms[last].value;
    }
  }

  lemma {:induction false} KeysAmount(h: Heap, slots: seq<Slot>, room: nat)
    ensures KeysOf(TreeMembers(h, slots, room)) == KeyBytes(slots)
  {
    hide Tree, Utf8Length;
    if slots != [] { KeysAmount(h, slots[1..], room); }
  }

  /** The amounts of an object graph node: its keys, then its children's. */
  lemma {:induction false} NodeAmounts(h: Heap, id: nat, room: nat)
    requires room >= 1 && Below(h(id)).Some?
    ensures
      var below := Below(h(id)).value;
      var xs := AmountsOf(TreeItems(h, below.0, room - 1));
      && (h(id).ArrayNode? ==> Amounts(Tree(h, Ref(id), room)) == xs && below.1 == 0)
      && (h(id).ObjectNode? ==> Amounts(Tree(h, Ref(id), room)) == [OfKeys(below.1)] + xs)
  {
    hide AmountsOf, AmountsOfMembers, KeysOf, TreeItems, TreeMembers, ElementsFrom, SlotsOf;
    if h(id).ObjectNode? { MembersAmount(h, SlotsIn(h(id)), room - 1); }
  }

  // ---- acceptance is shape and fit ------------------------------------------------------------------------

  /** The amounts of a stack, in the order in which it is worked off. */
  function StackAmounts(h: Heap, items: seq<Item>, room: nat): seq<Amount> {
    if items == [] then []
    else
      var last := |items| - 1;
      Amounts(Tree(h, items[last].value, room)) + StackAmounts(h, items[..last], room)
  }

  lemma {:induction false} StackOfChildren(h: Heap, depth: nat, values: seq<Value>, room: nat)
    ensures StackAmounts(h, ItemsAt(depth, values), room) == AmountsOf(TreeItems(h, values, room))
    decreases |values|
  {
    hide Tree, Amounts;
    if values != [] {
      var last := |values| - 1;
      StackOfChildren(h, depth, values[..last], room);
      assert ItemsAt(depth, values)[..last] == ItemsAt(depth, values[..last]);
      assert TreeItems(h, values, room)[..last] == TreeItems(h, values[..last], room);
    }
  }

  /** The check with texts is the check without them and a test of the running total at each string. */
  predicate SplitsInto(r: Option<Progress>, s: Option<Progress>, xs: seq<Amount>, before: nat) {
    && (r.Some? <==> s.Some? && Fits(xs, before))
    && (r.Some? ==> s.value.bytes == 0 && r.value == s.value.(bytes := before + Total(xs)))
  }

  lemma {:induction false} VisitSplits(h: Heap, item: Item, p: Progress, room: nat)
    requires room + item.depth >= MAX_DEPTH + 1
    ensures SplitsInto(Visit(h, item, p), Visit(Shape(h), Item(item.depth, Emptied(item.value)), p.(bytes := 0)),
                       Amounts(Tree(h, item.value, room)), p.bytes)
    decreases Rank(item), 1, 0
  {
    if item.value.Ref? && item.depth <= MAX_DEPTH {
      RefSplits(h, item, p, room);
    } else {
      ScalarSplits(h, item, p, room);
    }
  }

  lemma {:induction false} ScalarSplits(h: Heap, item: Item, p: Progress, room: nat)
    requires !item.value.Ref? || item.depth > MAX_DEPTH
    ensures SplitsInto(Visit(h, item, p), Visit(Shape(h), Item(item.depth, Emptied(item.value)), p.(bytes := 0)),
                       Amounts(Tree(h, item.value, room)), p.bytes)
  {
    hide VisitAll;
    if item.value.Chars? {
      var xs := Amounts(Tree(h, item.value, room));
      assert xs == [OfString(Utf8Length(item.value.text))] && xs[1..] == [];
      EmptyFits(p.bytes + xs[0].n);
      assert Utf8Length([]) == 0;
      assert Visit(Shape(h), Item(item.depth, Chars([])), p.(bytes := 0)) == Some(p.(bytes := 0));
      var bytes := p.bytes + xs[0].n;
      assert Visit(h, item, p) == if bytes > MAX_STRING_BYTES then None else Some(p.(bytes := bytes));
    } else if !item.value.Ref? {
      assert Amounts(Tree(h, item.value, room)) == [];
    }
  }

  lemma {:induction false} RefSplits(h: Heap, item: Item, p: Progress, room: nat)
    requires item.value.Ref? && item.depth <= MAX_DEPTH && room + item.depth >= MAX_DEPTH + 1
    ensures SplitsInto(Visit(h, item, p), Visit(Shape(h), Item(item.depth, item.value), p.(bytes := 0)),
                       Amounts(Tree(h, item.value, room)), p.bytes)
    decreases Rank(item), 0, 0
  {
    hide Visit, VisitAll, Below, Amounts, Tree, EmptiedNode, Fits, Total, StackAmounts, AmountsOf, TreeItems,
         SplitsInto;
    var id, g, q := item.value.id, Shape(h), p.(bytes := 0);
    EmptiedBelow(h(id));
    var r, s := Admit(h, item, p), Admit(g, item, q);
    if r.Some? {
      var below := Below(h(id)).value;
      var kids := r.value.0;
      NodeAmounts(h, id, room);
      StackOfChildren(h, item.depth + 1, below.0, room - 1);
      KidsRankedToo(h, item, p);
      assert s.value.0 == EmptiedItems(kids);
      VisitAllSplits(h, kids, r.value.1, Rank(item) - 1, item.depth + 1, room - 1);
      RefVisits(h, item, p);
      RefVisits(g, item, q);
      BehindKeys(Visit(h, item, p), Visit(g, item, q), AmountsOf(TreeItems(h, below.0, room - 1)), p.bytes, below.1);
      if h(id).ArrayNode? { assert below.1 == 0 && r.value.1.bytes == p.bytes; }
    } else {
      RefusedSplits(h, g, item, p, Amounts(Tree(h, item.value, room)));
    }
  }

  lemma {:induction false} RefVisits(h: Heap, item: Item, p: Progress)
    requires item.value.Ref? && item.depth <= MAX_DEPTH && Admit(h, item, p).Some?
    ensures Ranked(Admit(h, item, p).value.0, Rank(item) - 1)
    ensures Visit(h, item, p) == VisitAll(h, Admit(h, item, p).value.0, Admit(h, item, p).value.1, Rank(item) - 1)
  {
    hide Admit;
    KidsRankedToo(h, item, p);
  }

  lemma {:induction false} RefusedSplits(h: Heap, g: Heap, item: Item, p: Progress, xs: seq<Amount>)
    requires Admit(h, item, p).None? && Admit(g, item, p.(bytes := 0)).None?
    ensures SplitsInto(Visit(h, item, p), Visit(g, item, p.(bytes := 0)), xs, p.bytes)
  {
    hide Admit, Fits, Total;
  }

  /** Keys are added in front without a test. */
  lemma {:induction false} BehindKeys(r: Option<Progress>, s: Option<Progress>, xs: seq<Amount>, before: nat, keys: nat)
    requires SplitsInto(r, s, xs, before + keys)
    ensures SplitsInto(r, s, [OfKeys(keys)] + xs, before)
  {
    var ys := [OfKeys(keys)] + xs;
    assert ys[1..] == xs && ys[0].n == keys;
  }

  lemma {:induction false} KidsRankedToo(h: Heap, item: Item, p: Progress)
    requires Admit(h, item, p).Some? && item.value.Ref?
    ensures Ranked(Admit(h, item, p).value.0, Rank(item) - 1)
    ensures forall i :: 0 <= i < |Admit(h, item, p).value.0| ==> Admit(h, item, p).value.0[i].depth == item.depth + 1
  {
    hide Below;
  }

  lemma {:induction false} VisitAllSplits(h: Heap, items: seq<Item>, p: Progress, rank: nat, depth: nat, room: nat)
    requires Ranked(items, rank) && room + depth >= MAX_DEPTH + 1
    requires forall i :: 0 <= i < |items| ==> items[i].depth == depth
    ensures Ranked(EmptiedItems(items), rank)
    ensures SplitsInto(VisitAll(h, items, p, rank), VisitAll(Shape(h), EmptiedItems(items), p.(bytes := 0), rank),
                       StackAmounts(h, items, room), p.bytes)
    decreases rank, 2, |items|
  {
    hide Visit, Amounts, Tree, Fits;
    assert forall i :: 0 <= i < |items| ==> Rank(EmptiedItems(items)[i]) == Rank(items[i]);
    if items == [] {
      EmptyFits(p.bytes);
    } else {
      var last := |items| - 1;
      var xs := Amounts(Tree(h, items[last].value, room));
      var q := Visit(h, items[last], p);
      assert EmptiedItems(items)[..last] == EmptiedItems(items[..last]);
      VisitSplits(h, items[last], p, room);
      FitsConcat(xs, StackAmounts(h, items[..last], room), p.bytes);
      if q.Some? { VisitAllSplits(h, items[..last], q.value, rank, depth, room); }
    }
  }

  lemma {:induction false} EmptyFits(before: nat)
    ensures Fits([], before) && Total([]) == 0
  {
  }

  /** Accepted exactly: the same graph without its texts is accepted, and at every string, in the
      order of the visit, the bytes of all strings and keys so far are within the limit. */
  lemma {:induction false} AcceptedExactly(h: Heap, v: Value)
    ensures Accepted(h, v) <==> Accepted(Shape(h), Emptied(v)) && Fits(Amounts(Tree(h, v, 33)), 0)
    ensures Accepted(h, v) ==> Visit(h, Item(0, v), START).value.bytes == Total(Amounts(Tree(h, v, 33)))
  {
    hide Visit, Fits, Amounts, Tree;
    VisitSplits(h, Item(0, v), START, 33);
  }

  /** So an accepted value is over the limit by no more than the keys after its last string. */
  lemma {:induction false} OverByTrailingKeys(h: Heap, v: Value)
    requires Accepted(h, v)
    ensures
      var xs := Amounts(Tree(h, v, 33));
      Trailing(xs) <= Total(xs) && Total(xs) - Trailing(xs) <= MAX_STRING_BYTES
  {
    hide Fits, Amounts, Tree, Total, Trailing;
    AcceptedExactly(h, v);
    FittingLeavesTrailing(Amounts(Tree(h, v, 33)));
  }

  /** And it is within the limit altogether exactly if the check still accepts with an empty string
      popped last. */
  lemma {:induction false} WithinLimitExactly(h: Heap, v: Value)
    requires Accepted(h, v)
    ensures Ranked([Item(0, Chars([])), Item(0, v)], 33)
    ensures Total(Amounts(Tree(h, v, 33))) <= MAX_STRING_BYTES <==>
      VisitAll(h, [Item(0, Chars([])), Item(0, v)], START, 33).Some?
  {
    hide Visit, Amounts, Tree, Total, Fits;
    AcceptedExactly(h, v);
    var q := Visit(h, Item(0, v), START).value;
    var a, b := [Item(0, Chars([]))], [Item(0, v)];
    EverythingRanked(a);
    EverythingRanked(b);
    assert a + b == [Item(0, Chars([])), Item(0, v)];
    VisitInTurn(h, a, b, START, 33);
    VisitOne(h, Item(0, v), START);
    VisitOne(h, Item(0, Chars([])), q);
    EmptyStringLast(h, q);
  }

  lemma {:induction false} EmptyStringLast(h: Heap, q: Progress)
    ensures Visit(h, Item(0, Chars([])), q).Some? <==> q.bytes <= MAX_STRING_BYTES
  {
    assert Utf8Length([]) == 0;
  }

  // ---- a printed value outgrows the file it is kept in -----------------------------------------------

  /** What a journal reader admits, in bytes. */
  const MAX_FILE_BYTES := 16_777_216

  /** A unit that is printed as a six-unit escape. */
  predicate Control(c: CodeUnit) { c < 8 }

  lemma {:induction false} ControlsTakeSix(t: Text)
    requires forall k :: 0 <= k < |t| ==> Control(t[k])
    ensures Utf8Length(t) == |t| && |EscapeUnits(t)| == 6 * |t|
    ensures forall k :: 0 <= k < |EscapeUnits(t)| ==> EscapeUnits(t)[k] < 0x80
  {
    if t != [] {
      ControlsTakeSix(t[1..]);
      assert |EscapeUnit(t[0])| == 6;
      assert EscapeUnits(t) == EscapeUnit(t[0]) + EscapeUnits(t[1..]);
    }
  }

  lemma {:induction false} AsciiIsOneByteEach(t: Text)
    requires forall k :: 0 <= k < |t| ==> t[k] < 0x80
    ensures Utf8Length(t) == |t|
  {
    if t != [] { AsciiIsOneByteEach(t[1..]); }
  }

  /** The check counts a string as it is, the file holds it escaped: this one is accepted and does not
      fit the file that a journal with it is printed to. */
  lemma {:induction false} AcceptedTextOutgrowsTheFile(h: Heap, t: Text)
    requires |t| == 2_900_000 && forall k :: 0 <= k < |t| ==> Control(t[k])
    ensures Accepted(h, Chars(t))
    ensures Utf8Length(Print(Str(t))) > MAX_FILE_BYTES
  {
    ControlsTakeSix(t);
    var quoted := Print(Str(t));
    assert quoted == [QUOTE] + EscapeUnits(t) + [QUOTE];
    AsciiIsOneByteEach(quoted);
    StringAccepted(h, t);
  }

  lemma {:induction false} StringAccepted(h: Heap, t: Text)
    ensures Accepted(h, Chars(t)) <==> Utf8Length(t) <= MAX_STRING_BYTES
  {
    hide Utf8Length;
  }
}
