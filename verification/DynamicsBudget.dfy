/** The cloning parser of dynamics JSON: a recursive copy that spends one shared
    budget of nodes and code units. What it accepts depends only on totals, not on the
    order in which properties are met, and what it returns is the normal form. */
module DynamicsBudget {
  import opened Wrappers
  import opened Text
  import opened JsonText
  import opened CanonicalJson
  import opened JsonGate
  import Numbers

  const DEPTH_LIMIT := 24
  const NODE_LIMIT := 4096
  const CODE_UNIT_LIMIT := 65_536
  const STRING_LIMIT := 16_384

  /** "__proto__", "constructor" and "prototype". */
  const DANGEROUS_KEYS: seq<Text> := [
    [95, 95, 112, 114, 111, 116, 111, 95, 95],
    [99, 111, 110, 115, 116, 114, 117, 99, 116, 111, 114],
    [112, 114, 111, 116, 111, 116, 121, 112, 101]]

  datatype Spent = Spent(nodes: nat, units: nat)

  predicate Affordable(b: Spent) { b.nodes <= NODE_LIMIT && b.units <= CODE_UNIT_LIMIT }

  function Plus(a: Spent, b: Spent): Spent { Spent(a.nodes + b.nodes, a.units + b.units) }

  function Left(depth: nat): nat { if depth <= DEPTH_LIMIT then 25 - depth else 0 }

  // ---- the copy, one budget threaded through ---------------------------------------------

  function Consume(t: Text, b: Spent): Option<Spent> {
    if |t| > STRING_LIMIT || b.units + |t| > CODE_UNIT_LIMIT then None else Some(b.(units := b.units + |t|))
  }

  function Clone(h: Heap, v: Value, depth: nat, b: Spent): Option<(Json, Spent)>
    decreases Left(depth), 0, 0
  {
    if depth > DEPTH_LIMIT || b.nodes + 1 > NODE_LIMIT then None
    else
      var next := b.(nodes := b.nodes + 1);
      match v
      case Nothing => Some((Null, next))
      case Truth(x) => Some((Bool(x), next))
      case Decimal(n) => if n.None? then None else Some((Num(Numbers.DropNegativeZero(n.value)), next))
      case Chars(t) =>
        var spent := Consume(t, next);
        if spent.None? then None else Some((Str(t), spent.value))
      case Unprintable => None
      case Ref(id) =>
        if h(id).ArrayNode? then
          if h(id).extras != 0 then None
          else match CloneElements(h, h(id), 0, depth + 1, next)
            case None => None
            case Some(r) => Some((Arr(r.0), r.1))
        else if !h(id).plain then None
        else match CloneProperties(h, h(id).properties, depth + 1, next)
          case None => None
          case Some(r) => Some((Obj(Arrange(IndicesFirst, r.0)), r.1))
  }

  function CloneElements(h: Heap, n: Node, from: nat, depth: nat, b: Spent): (r: Option<(seq<Json>, Spent)>)
    requires n.ArrayNode? && from <= n.length
    ensures r.Some? ==> |r.value.0| == n.length - from
    decreases Left(depth), 1, n.length - from
  {
    if from == n.length then Some(([], b))
    else if from !in n.elements || !Visible(n.elements[from]) then None
    else match Clone(h, n.elements[from].value, depth, b)
      case None => None
      case Some(first) =>
        match CloneElements(h, n, from + 1, depth, first.1)
        case None => None
        case Some(rest) => Some(([first.0] + rest.0, rest.1))
  }

  function CloneProperties(h: Heap, ps: seq<Property>, depth: nat, b: Spent): (r: Option<(seq<Member>, Spent)>)
    ensures r.Some? ==> |r.value.0| == |ps|
    decreases Left(depth), 1, |ps|
  {
    if ps == [] then Some(([], b))
    else if ps[0].key.Symbol? then None
    else
      var key := ps[0].key.text;
      var named := Consume(key, b);
      if named.None? || key in DANGEROUS_KEYS || !Visible(ps[0].descriptor) then None
      else match Clone(h, ps[0].descriptor.value, depth, named.value)
        case None => None
        case Some(first) =>
          match CloneProperties(h, ps[1..], depth, first.1)
          case None => None
          case Some(rest) => Some(([Member(key, first.0)] + rest.0, rest.1))
  }

  // ---- what a value costs, whatever the budget -----------------------------------------------

  /** The nodes and code units below a value, or None if it is refused whatever the budget:
      too deep, too long a string, a dangerous or hidden property, or not JSON at all. */
  function Cost(h: Heap, v: Value, depth: nat): Option<Spent>
    decreases Left(depth), 0, 0
  {
    if depth > DEPTH_LIMIT then None
    else match v
      case Decimal(n) => if n.None? then None else Some(Spent(1, 0))
      case Chars(t) => if |t| > STRING_LIMIT then None else Some(Spent(1, |t|))
      case Unprintable => None
      case Ref(id) =>
        if h(id).ArrayNode? then
          if h(id).extras != 0 then None
          else
            var below := CostOfElements(h, h(id), 0, depth + 1);
            if below.None? then None else Some(Plus(Spent(1, 0), below.value))
        else if !h(id).plain then None
        else
          var below := CostOfProperties(h, h(id).properties, depth + 1);
          if below.None? then None else Some(Plus(Spent(1, 0), below.value))
      case _ => Some(Spent(1, 0))
  }

  function CostOfElements(h: Heap, n: Node, from: nat, depth: nat): Option<Spent>
    requires n.ArrayNode? && from <= n.length
    decreases Left(depth), 1, n.length - from
  {
    if from == n.length then Some(Spent(0, 0))
    else if from !in n.elements || !Visible(n.elements[from]) then None
    else
      var first := Cost(h, n.elements[from].value, depth);
      var rest := CostOfElements(h, n, from + 1, depth);
      if first.None? || rest.None? then None else Some(Plus(first.value, rest.value))
  }

  function CostOfProperties(h: Heap, ps: seq<Property>, depth: nat): Option<Spent>
    decreases Left(depth), 1, |ps|
  {
    if ps == [] then Some(Spent(0, 0))
    else
      var first := CostOfProperty(h, ps[0], depth);
      var rest := CostOfProperties(h, ps[1..], depth);
      if first.None? || rest.None? then None else Some(Plus(first.value, rest.value))
  }

  function CostOfProperty(h: Heap, p: Property, depth: nat): Option<Spent>
    decreases Left(depth), 1, 0
  {
    if p.key.Symbol? || |p.key.text| > STRING_LIMIT || p.key.text in DANGEROUS_KEYS || !Visible(p.descriptor)
    then None
    else
      var value := Cost(h, p.descriptor.value, depth);
      if value.None? then None else Some(Plus(Spent(0, |p.key.text|), value.value))
  }

  // ---- the copy is exact ------------------------------------------------------------------------

  /** The outcome the totals alone decide. */
  function Within<T>(b: Spent, cost: Option<Spent>, value: T): Option<(T, Spent)> {
    if cost.None? || !Affordable(Plus(b, cost.value)) then None else Some((value, Plus(b, cost.value)))
  }

  function NormalItems(items: seq<Json>): seq<Json> {
    seq(|items|, i requires 0 <= i < |items| => Normalize(IndicesFirst, items[i]))
  }

  lemma {:induction false} ConsItems(h: Heap, v: Value, rest: seq<Value>, room: nat)
    ensures NormalItems(TreeItems(h, [v] + rest, room))
      == [Normalize(IndicesFirst, Tree(h, v, room))] + NormalItems(TreeItems(h, rest, room))
  {
    hide Tree, Normalize;
    assert ([v] + rest)[1..] == rest;
  }

  lemma {:induction false} ConsMembers(h: Heap, x: Slot, rest: seq<Slot>, room: nat)
    ensures NormalizeMembers(IndicesFirst, TreeMembers(h, [x] + rest, room))
      == [Member(x.key, Normalize(IndicesFirst, Tree(h, x.value, room)))]
         + NormalizeMembers(IndicesFirst, TreeMembers(h, rest, room))
  {
    hide Tree, Normalize;
    assert ([x] + rest)[1..] == rest;
  }

  lemma {:induction false} NothingToCopy(h: Heap, room: nat)
    ensures NormalItems(TreeItems(h, [], room)) == []
    ensures NormalizeMembers(IndicesFirst, TreeMembers(h, [], room)) == []
  {
  }

  lemma {:induction false} ScalarIsExact(h: Heap, v: Value, depth: nat, b: Spent, room: nat)
    requires Affordable(b) && !v.Ref?
    ensures Clone(h, v, depth, b) == Within(b, Cost(h, v, depth), Normalize(IndicesFirst, Tree(h, v, room)))
  {
  }

  /** A copy succeeds exactly when the totals of the value fit what is left of the budget,
      whatever the order of the properties, and it is the normal form of the value. */
  lemma {:induction false} CloneIsExact(h: Heap, v: Value, depth: nat, b: Spent, room: nat)
    requires Affordable(b) && depth + room >= DEPTH_LIMIT + 1
    ensures Clone(h, v, depth, b) == Within(b, Cost(h, v, depth), Normalize(IndicesFirst, Tree(h, v, room)))
    decreases Left(depth), 0, 0
  {
    hide Arrange, DANGEROUS_KEYS, ElementsFrom, SlotsOf, CloneElements, CloneProperties, CostOfElements,
         CostOfProperties, TreeItems, TreeMembers, NormalizeMembers;
    if !v.Ref? {
      ScalarIsExact(h, v, depth, b, room);
    } else if depth <= DEPTH_LIMIT && b.nodes + 1 <= NODE_LIMIT {
      var next := b.(nodes := b.nodes + 1);
      if h(v.id).ArrayNode? {
        ElementsAreExact(h, h(v.id), 0, depth + 1, next, room - 1);
      } else {
        PropertiesAreExact(h, h(v.id).properties, depth + 1, next, room - 1);
      }
    }
  }

  lemma {:induction false} ElementsAreExact(h: Heap, n: Node, from: nat, depth: nat, b: Spent, room: nat)
    requires n.ArrayNode? && from <= n.length && Affordable(b) && depth + room >= DEPTH_LIMIT + 1
    ensures CostOfElements(h, n, from, depth).Some? ==> ElementsFrom(n, from).Some?
    ensures CloneElements(h, n, from, depth, b) ==
      Within(b, CostOfElements(h, n, from, depth),
             NormalItems(TreeItems(h, ElementsFrom(n, from).GetOr([]), room)))
    decreases Left(depth), 1, n.length - from
  {
    hide Cost, Clone, Tree, Normalize, TreeItems, NormalItems;
    if from == n.length {
      NothingToCopy(h, room);
    } else if from in n.elements && Visible(n.elements[from]) {
      var value := n.elements[from].value;
      CloneIsExact(h, value, depth, b, room);
      var first := Clone(h, value, depth, b);
      ElementsAreExact(h, n, from + 1, depth, if first.Some? then first.value.1 else b, room);
      ConsItems(h, value, ElementsFrom(n, from + 1).GetOr([]), room);
    }
  }

  lemma {:induction false} PropertiesAreExact(h: Heap, ps: seq<Property>, depth: nat, b: Spent, room: nat)
    requires Affordable(b) && depth + room >= DEPTH_LIMIT + 1
    ensures CostOfProperties(h, ps, depth).Some? ==> SlotsOf(ps).Some?
    ensures CloneProperties(h, ps, depth, b) ==
      Within(b, CostOfProperties(h, ps, depth),
             NormalizeMembers(IndicesFirst, TreeMembers(h, SlotsOf(ps).GetOr([]), room)))
    decreases Left(depth), 1, |ps|
  {
    hide Cost, Clone, Tree, Normalize, DANGEROUS_KEYS, TreeMembers, NormalizeMembers;
    if ps == [] {
      NothingToCopy(h, room);
    } else if ps[0].key.Name? && Visible(ps[0].descriptor) {
      var key, value := ps[0].key.text, ps[0].descriptor.value;
      var named := Consume(key, b);
      var first := if named.Some? then Clone(h, value, depth, named.value) else None;
      if named.Some? { CloneIsExact(h, value, depth, named.value, room); }
      PropertiesAreExact(h, ps[1..], depth, if first.Some? then first.value.1 else b, room);
      ConsMembers(h, Slot(key, value), SlotsOf(ps[1..]).GetOr([]), room);
    } else {
      assert CostOfProperty(h, ps[0], depth).None?;
    }
  }

  /** Whether a value is accepted, and as what, does not depend on the order of properties or
      on how much was spent before it, only on the totals. */
  lemma {:induction false} FreshCopyIsExact(h: Heap, v: Value)
    ensures Clone(h, v, 0, Spent(0, 0)).Some? <==>
      Cost(h, v, 0).Some? && Cost(h, v, 0).value.nodes <= 4096 && Cost(h, v, 0).value.units <= 65_536
    ensures Clone(h, v, 0, Spent(0, 0)).Some? ==>
      Clone(h, v, 0, Spent(0, 0)).value.0 == Normalize(IndicesFirst, Tree(h, v, 25))
  {
    hide Clone, Cost, Tree, Normalize;
    CloneIsExact(h, v, 0, Spent(0, 0), 25);
  }

  lemma {:induction false} SwappedPropertiesCostTheSame(h: Heap, a: Property, b: Property, ps: seq<Property>,
                                                        depth: nat)
    ensures CostOfProperties(h, [a, b] + ps, depth) == CostOfProperties(h, [b, a] + ps, depth)
  {
    hide CostOfProperty;
    assert ([a, b] + ps)[1..] == [b] + ps && ([b] + ps)[1..] == ps;
    assert ([b, a] + ps)[1..] == [a] + ps && ([a] + ps)[1..] == ps;
  }

  // ---- the same copy with a budget updated in place -------------------------------------------------

  class Budget {
    var nodes: nat
    var codeUnits: nat

    constructor ()
      ensures nodes == 0 && codeUnits == 0
    {
      nodes, codeUnits := 0, 0;
    }

    function Now(): Spent
      reads this
    {
      Spent(nodes, codeUnits)
    }

    method ConsumeString(t: Text) returns (ok: bool)
      modifies this
      ensures ok <==> Consume(t, old(Now())).Some?
      ensures ok ==> Now() == Consume(t, old(Now())).value
    {
      if |t| > STRING_LIMIT { return false; }
      codeUnits := codeUnits + |t|;
      return codeUnits <= CODE_UNIT_LIMIT;
    }

    method ConsumeNode(depth: nat) returns (ok: bool)
      modifies this
      ensures ok <==> depth <= DEPTH_LIMIT && old(nodes) + 1 <= NODE_LIMIT
      ensures ok ==> Now() == Spent(old(nodes) + 1, old(codeUnits))
    {
      if depth > DEPTH_LIMIT { return false; }
      nodes := nodes + 1;
      return nodes <= NODE_LIMIT;
    }
  }

  method CloneValue(h: Heap, v: Value, depth: nat, budget: Budget) returns (r: Option<Json>)
    modifies budget
    ensures r == First(old(Clone(h, v, depth, budget.Now())))
    ensures r.Some? ==> budget.Now() == old(Clone(h, v, depth, budget.Now())).value.1
    decreases Left(depth), 0, 0
  {
    var counted := budget.ConsumeNode(depth);
    if !counted { return None; }
    match v {
      case Nothing => return Some(Null);
      case Truth(b) => return Some(Bool(b));
      case Chars(t) =>
        var spent := budget.ConsumeString(t);
        return if spent then Some(Str(t)) else None;
      case Decimal(n) => return if n.None? then None else Some(Num(Numbers.DropNegativeZero(n.value)));
      case Unprintable => return None;
      case Ref(id) =>
        if h(id).ArrayNode? {
          if h(id).extras != 0 { return None; }
          var items := CloneArray(h, h(id), depth + 1, budget);
          return if items.None? then None else Some(Arr(items.value));
        }
        if !h(id).plain { return None; }
        var members := CloneObject(h, h(id).properties, depth + 1, budget);
        return if members.None? then None else Some(Obj(Arrange(IndicesFirst, members.value)));
    }
  }

  function First<T, U>(r: Option<(T, U)>): Option<T> { if r.None? then None else Some(r.value.0) }

  method CloneArray(h: Heap, n: Node, depth: nat, budget: Budget) returns (r: Option<seq<Json>>)
    requires n.ArrayNode?
    modifies budget
    ensures r == First(old(CloneElements(h, n, 0, depth, budget.Now())))
    ensures r.Some? ==> budget.Now() == old(CloneElements(h, n, 0, depth, budget.Now())).value.1
    decreases Left(depth), 2, n.length
  {
    hide Clone;
    ghost var before := budget.Now();
    var cloned: seq<Json> := [];
    BehindEnds(cloned, CloneElements(h, n, 0, depth, before), before);
    for index := 0 to n.length
      invariant CloneElements(h, n, 0, depth, before)
        == Behind(cloned, CloneElements(h, n, index, depth, budget.Now()))
    {
      if index !in n.elements || !Visible(n.elements[index]) { return None; }
      var item := CloneValue(h, n.elements[index].value, depth, budget);
      if item.None? { return None; }
      BehindOneMore(cloned, item.value, CloneElements(h, n, index + 1, depth, budget.Now()));
      cloned := cloned + [item.value];
    }
    BehindEnds(cloned, None, budget.Now());
    return Some(cloned);
  }

  /** A copied front put before what the rest gives. */
  function Behind<T>(front: seq<T>, rest: Option<(seq<T>, Spent)>): Option<(seq<T>, Spent)> {
    if rest.None? then None else Some((front + rest.value.0, rest.value.1))
  }

  lemma {:induction false} BehindEnds<T>(front: seq<T>, rest: Option<(seq<T>, Spent)>, b: Spent)
    ensures Behind([], rest) == rest
    ensures Behind(front, Some(([], b))) == Some((front, b))
  {
    if rest.Some? { assert [] + rest.value.0 == rest.value.0; }
    assert front + [] == front;
  }

  lemma {:induction false} BehindOneMore<T>(front: seq<T>, x: T, rest: Option<(seq<T>, Spent)>)
    ensures Behind(front, Behind([x], rest)) == Behind(front + [x], rest)
  {
    if rest.Some? { assert front + ([x] + rest.value.0) == (front + [x]) + rest.value.0; }
  }

  method CloneObject(h: Heap, properties: seq<Property>, depth: nat, budget: Budget)
    returns (r: Option<seq<Member>>)
    modifies budget
    ensures r == First(old(CloneProperties(h, properties, depth, budget.Now())))
    ensures r.Some? ==> budget.Now() == old(CloneProperties(h, properties, depth, budget.Now())).value.1
    decreases Left(depth), 2, |properties|
  {
    hide Clone, DANGEROUS_KEYS;
    ghost var before := budget.Now();
    var entries: seq<Member> := [];
    assert properties[0..] == properties;
    BehindEnds(entries, CloneProperties(h, properties, depth, before), before);
    for i := 0 to |properties|
      invariant CloneProperties(h, properties, depth, before)
        == Behind(entries, CloneProperties(h, properties[i..], depth, budget.Now()))
    {
      var p := properties[i];
      assert properties[i..][1..] == properties[i + 1..];
      if p.key.Symbol? { return None; }
      var named := budget.ConsumeString(p.key.text);
      if !named { return None; }
      if p.key.text in DANGEROUS_KEYS || !Visible(p.descriptor) { return None; }
      var value := CloneValue(h, p.descriptor.value, depth, budget);
      if value.None? { return None; }
      BehindOneMore(entries, Member(p.key.text, value.value),
                    CloneProperties(h, properties[i + 1..], depth, budget.Now()));
      entries := entries + [Member(p.key.text, value.value)];
    }
    BehindEnds(entries, None, budget.Now());
    return Some(entries);
  }

  /** cloneDynamicsJson: a fresh budget, and then exactly the normal form of what fits it. */
  method CloneDynamicsJson(h: Heap, v: Value) returns (r: Option<Json>)
    ensures r.Some? <==>
      Cost(h, v, 0).Some? && Cost(h, v, 0).value.nodes <= 4096 && Cost(h, v, 0).value.units <= 65_536
    ensures r.Some? ==> r.value == Normalize(IndicesFirst, Tree(h, v, 25))
  {
    var budget := new Budget();
    FreshCopyIsExact(h, v);
    r := CloneValue(h, v, 0, budget);
  }

  /** A string may have 16,384 code units, and a value lie 24 levels deep. */
  lemma {:induction false} ScalarsCopied(h: Heap, t: Text, depth: nat)
    ensures Clone(h, Chars(t), 0, Spent(0, 0)).Some? <==> |t| <= 16_384
    ensures Clone(h, Nothing, depth, Spent(0, 0)).Some? <==> depth <= 24
  {
  }

  /** The keys that would reach a prototype are refused. */
  lemma {:induction false} DangerousKeys(t: Text)
    ensures t in DANGEROUS_KEYS <==> t == Ascii("__proto__") || t == Ascii("constructor") || t == Ascii("prototype")
  {
    assert DANGEROUS_KEYS[0] == Ascii("__proto__");
    assert DANGEROUS_KEYS[1] == Ascii("constructor");
    assert DANGEROUS_KEYS[2] == Ascii("prototype");
  }
}
