/** The two canonical printers, and the fact every digest rests on: two values
    print the same text exactly when they are the same value up to the order of
    object keys and the sign of zero. */
module CanonicalJson {
  import opened Wrappers
  import opened Text
  import opened JsonText
  import Numbers

  function KeyOf(m: Member): Text { m.key }

  /** A value as JavaScript holds it: no object has one key twice. */
  predicate Plain(v: Json) {
    match v
    case Num(n) => Numbers.WellFormed(n)
    case Arr(items) => forall i :: 0 <= i < |items| ==> Plain(items[i])
    case Obj(members) =>
      && (forall i, j :: 0 <= i < j < |members| ==> members[i].key != members[j].key)
      && forall i :: 0 <= i < |members| ==> Plain(members[i].value)
    case _ => true
  }

  /** The same value, up to the order of object keys and the sign of zero. */
  predicate Equiv(v: Json, w: Json) {
    match (v, w)
    case (Num(a), Num(b)) => Numbers.DropNegativeZero(a) == Numbers.DropNegativeZero(b)
    case (Arr(a), Arr(b)) => |a| == |b| && forall i :: 0 <= i < |a| ==> Equiv(a[i], b[i])
    case (Obj(a), Obj(b)) =>
      |a| == |b| && forall i :: 0 <= i < |a| ==> HasPartner(a[i], b)
    case _ => v == w
  }

  /** Some member has the same key and an equivalent value. */
  predicate HasPartner(m: Member, b: seq<Member>) {
    exists j :: 0 <= j < |b| && m.key == b[j].key && Equiv(m.value, b[j].value)
  }

  // ---- enumeration order of a new object ---------------------------------------

  /** An array index of ECMA-262 section 6.1.7: canonical digits below 2^32 - 1. */
  function ArrayIndex(key: Text): Option<nat> {
    var ds := Numbers.TakeDigits(key);
    if key == [] || |ds| != |key| || (|key| > 1 && key[0] == Numbers.CHAR_ZERO) then None
    else
      var n := Numbers.FromDecimal(ds);
      if n < 0xFFFF_FFFF then Some(n) else None
  }

  function InsertByIndex(m: Member, ms: seq<Member>): seq<Member>
    requires ArrayIndex(m.key).Some?
    requires forall x :: x in ms ==> ArrayIndex(x.key).Some?
  {
    if ms == [] || ArrayIndex(m.key).value < ArrayIndex(ms[0].key).value then [m] + ms
    else [ms[0]] + InsertByIndex(m, ms[1..])
  }

  /** The members whose keys are array indices, in ascending order of the index. */
  function IndexMembers(ms: seq<Member>): (r: seq<Member>)
    ensures forall x :: x in r ==> ArrayIndex(x.key).Some?
    ensures forall x :: x in r <==> x in ms && ArrayIndex(x.key).Some?
  {
    if ms == [] then []
    else
      var rest := IndexMembers(ms[1..]);
      assert ms == [ms[0]] + ms[1..];
      if ArrayIndex(ms[0].key).Some? then
        InsertByIndexElements(ms[0], rest);
        InsertByIndex(ms[0], rest)
      else rest
  }

  function NamedMembers(ms: seq<Member>): (r: seq<Member>)
    ensures forall x :: x in r <==> x in ms && ArrayIndex(x.key).None?
  {
    if ms == [] then []
    else
      assert ms == [ms[0]] + ms[1..];
      (if ArrayIndex(ms[0].key).None? then [ms[0]] else []) + NamedMembers(ms[1..])
  }

  /** The order in which an object built from these entries lists them
      (ECMA-262 section 10.1.11.1): indices first, then names as inserted. */
  function Enumerate(ms: seq<Member>): seq<Member> { IndexMembers(ms) + NamedMembers(ms) }

  lemma {:induction false} InsertByIndexElements(m: Member, ms: seq<Member>)
    requires ArrayIndex(m.key).Some?
    requires forall x :: x in ms ==> ArrayIndex(x.key).Some?
    ensures |InsertByIndex(m, ms)| == |ms| + 1
    ensures forall x :: x in InsertByIndex(m, ms) <==> x == m || x in ms
  {
    if ms != [] {
      InsertByIndexElements(m, ms[1..]);
      assert ms == [ms[0]] + ms[1..];
    }
  }

  lemma {:induction false} EnumerateLength(ms: seq<Member>)
    ensures |Enumerate(ms)| == |ms|
  {
    if ms != [] {
      EnumerateLength(ms[1..]);
      if ArrayIndex(ms[0].key).Some? {
        InsertByIndexElements(ms[0], IndexMembers(ms[1..]));
      }
    }
  }

  // ---- normal form --------------------------------------------------------------

  datatype Order = ByKey | IndicesFirst

  /** Sorted entries, as printed from sorted keys or from a new object. */
  function Arrange(order: Order, ms: seq<Member>): seq<Member> {
    var sorted := SortByKey(ms, KeyOf);
    if order.ByKey? then sorted else Enumerate(sorted)
  }

  function Normalize(order: Order, v: Json): Json
    decreases v
  {
    match v
    case Num(n) => Num(Numbers.DropNegativeZero(n))
    case Arr(items) =>
      Arr(seq(|items|, i requires 0 <= i < |items| => Normalize(order, items[i])))
    case Obj(members) => Obj(Arrange(order, NormalizeMembers(order, members)))
    case _ => v
  }

  function NormalizeMembers(order: Order, members: seq<Member>): (r: seq<Member>)
    ensures |r| == |members|
    decreases members
  {
    seq(|members|, i requires 0 <= i < |members| =>
      Member(members[i].key, Normalize(order, members[i].value)))
  }

  lemma {:induction false} ArrangeElements(order: Order, ms: seq<Member>)
    ensures |Arrange(order, ms)| == |ms|
    ensures forall m :: m in Arrange(order, ms) <==> m in ms
  {
    SortElements(ms, KeyOf);
    EnumerateLength(SortByKey(ms, KeyOf));
  }

  /** Prepending a member whose key is new keeps the keys distinct. */
  lemma {:induction false} PrependDistinct(m: Member, ms: seq<Member>)
    requires DistinctKeys(ms, KeyOf) && forall x :: x in ms ==> x.key != m.key
    ensures DistinctKeys([m] + ms, KeyOf)
  {
    forall i, j | 0 <= i < j < |ms| + 1 ensures KeyOf(([m] + ms)[i]) != KeyOf(([m] + ms)[j]) {
      assert ms[j - 1] in ms;
    }
  }

  lemma {:induction false} TailDistinct(ms: seq<Member>)
    requires ms != [] && DistinctKeys(ms, KeyOf)
    ensures DistinctKeys(ms[1..], KeyOf)
    ensures forall x :: x in ms[1..] ==> x.key != ms[0].key
  {
    forall x | x in ms[1..] ensures x.key != ms[0].key {
      var j :| 0 <= j < |ms[1..]| && ms[1..][j] == x;
      assert KeyOf(ms[0]) != KeyOf(ms[j + 1]);
    }
  }

  lemma {:induction false} InsertByIndexDistinct(m: Member, ms: seq<Member>)
    requires ArrayIndex(m.key).Some?
    requires forall x :: x in ms ==> ArrayIndex(x.key).Some?
    requires DistinctKeys(ms, KeyOf) && forall x :: x in ms ==> x.key != m.key
    ensures DistinctKeys(InsertByIndex(m, ms), KeyOf)
  {
    if ms == [] || ArrayIndex(m.key).value < ArrayIndex(ms[0].key).value {
      PrependDistinct(m, ms);
    } else {
      TailDistinct(ms);
      assert ms == [ms[0]] + ms[1..];
      InsertByIndexDistinct(m, ms[1..]);
      InsertByIndexElements(m, ms[1..]);
      PrependDistinct(ms[0], InsertByIndex(m, ms[1..]));
    }
  }

  lemma {:induction false} EnumerateParts(ms: seq<Member>)
    requires DistinctKeys(ms, KeyOf)
    ensures DistinctKeys(IndexMembers(ms), KeyOf) && DistinctKeys(NamedMembers(ms), KeyOf)
  {
    if ms != [] {
      TailDistinct(ms);
      EnumerateParts(ms[1..]);
      if ArrayIndex(ms[0].key).Some? {
        InsertByIndexDistinct(ms[0], IndexMembers(ms[1..]));
        assert NamedMembers(ms) == NamedMembers(ms[1..]);
      } else {
        PrependDistinct(ms[0], NamedMembers(ms[1..]));
      }
    }
  }

  lemma {:induction false} ArrangeDistinct(order: Order, ms: seq<Member>)
    requires DistinctKeys(ms, KeyOf)
    ensures DistinctKeys(Arrange(order, ms), KeyOf)
  {
    hide SortByKey, IndexMembers, NamedMembers;
    var sorted := SortByKey(ms, KeyOf);
    SortSorts(ms, KeyOf);
    SortedIsDistinct(sorted, KeyOf);
    EnumerateParts(sorted);
    var indices, names := IndexMembers(sorted), NamedMembers(sorted);
    forall i, j | 0 <= i < |indices| && 0 <= j < |names|
      ensures KeyOf(indices[i]) != KeyOf(names[j])
    {
      assert indices[i] in indices && names[j] in names;
    }
    assert forall i :: |indices| <= i < |sorted| ==> Enumerate(sorted)[i] == names[i - |indices|] by {
      EnumerateLength(sorted);
    }
  }

  lemma {:induction false} ArrangeOfSameElements(order: Order, a: seq<Member>, b: seq<Member>)
    requires DistinctKeys(a, KeyOf) && DistinctKeys(b, KeyOf)
    requires forall m :: m in a <==> m in b
    ensures Arrange(order, a) == Arrange(order, b)
  {
    SortOfSameElements(a, b, KeyOf);
  }

  lemma {:induction false} NormalizeMembersDistinct(order: Order, members: seq<Member>)
    requires Plain(Obj(members))
    ensures DistinctKeys(NormalizeMembers(order, members), KeyOf)
  {
    var ms := NormalizeMembers(order, members);
    assert forall i :: 0 <= i < |ms| ==> KeyOf(ms[i]) == members[i].key;
  }

  /** The normal form is a value again, with clean numbers. */
  lemma {:induction false} NormalizeKeepsPlain(order: Order, v: Json)
    requires Plain(v)
    ensures Plain(Normalize(order, v)) && Clean(Normalize(order, v))
    decreases v
  {
    hide Arrange;
    match v {
      case Arr(items) =>
        forall i | 0 <= i < |items|
          ensures Plain(Normalize(order, items[i])) && Clean(Normalize(order, items[i]))
        {
          NormalizeKeepsPlain(order, items[i]);
        }
      case Obj(members) =>
        var ms := NormalizeMembers(order, members);
        forall i | 0 <= i < |members| ensures Plain(ms[i].value) && Clean(ms[i].value) {
          NormalizeKeepsPlain(order, members[i].value);
        }
        NormalizeMembersDistinct(order, members);
        ArrangeDistinct(order, ms);
        ArrangeElements(order, ms);
        var arranged := Arrange(order, ms);
        forall i | 0 <= i < |arranged| ensures Plain(arranged[i].value) && Clean(arranged[i].value) {
          assert arranged[i] in arranged;
        }
        assert forall i, j :: 0 <= i < j < |arranged| ==> KeyOf(arranged[i]) != KeyOf(arranged[j]);
      case _ =>
    }
  }

  // ---- equal normal forms are equivalent values ------------------------------------

  lemma {:induction false} EqualNormalFormsAreEquivalent(order: Order, v: Json, w: Json)
    requires Normalize(order, v) == Normalize(order, w)
    ensures Equiv(v, w)
    decreases v
  {
    hide Arrange;
    match (v, w) {
      case (Arr(a), Arr(b)) =>
        var na, nb := Normalize(order, v).items, Normalize(order, w).items;
        assert |na| == |a| && |nb| == |b|;
        forall i | 0 <= i < |a| ensures Equiv(a[i], b[i]) {
          assert na[i] == Normalize(order, a[i]) && nb[i] == Normalize(order, b[i]);
          EqualNormalFormsAreEquivalent(order, a[i], b[i]);
        }
      case (Obj(a), Obj(b)) =>
        var na, nb := NormalizeMembers(order, a), NormalizeMembers(order, b);
        ArrangeElements(order, na);
        ArrangeElements(order, nb);
        forall i | 0 <= i < |a| ensures HasPartner(a[i], b) {
          assert na[i] in Arrange(order, na);
          assert na[i] in nb;
          var j :| 0 <= j < |nb| && nb[j] == na[i];
          EqualNormalFormsAreEquivalent(order, a[i].value, b[j].value);
        }
      case _ =>
    }
  }

  lemma {:induction false} EquivalentValuesNormalizeAlike(order: Order, v: Json, w: Json)
    requires Plain(v) && Plain(w) && Equiv(v, w)
    ensures Normalize(order, v) == Normalize(order, w)
    decreases v
  {
    hide Arrange;
    match (v, w) {
      case (Arr(a), Arr(b)) =>
        forall i | 0 <= i < |a| ensures Normalize(order, a[i]) == Normalize(order, b[i]) {
          EquivalentValuesNormalizeAlike(order, a[i], b[i]);
        }
      case (Obj(a), Obj(b)) =>
        var na, nb := NormalizeMembers(order, a), NormalizeMembers(order, b);
        var partner := Partners(a, b);
        forall i | 0 <= i < |a| ensures na[i] == nb[partner[i]] {
          EquivalentValuesNormalizeAlike(order, a[i].value, b[partner[i]].value);
        }
        NormalizeMembersDistinct(order, a);
        NormalizeMembersDistinct(order, b);
        MatchedMembersAreTheSame(na, nb, partner);
        ArrangeOfSameElements(order, na, nb);
      case _ =>
    }
  }

  lemma {:induction false} MatchedMembersAreTheSame(a: seq<Member>, b: seq<Member>, partner: seq<nat>)
    requires DistinctKeys(a, KeyOf) && |a| == |b| == |partner|
    requires forall i :: 0 <= i < |a| ==> partner[i] < |b| && a[i] == b[partner[i]]
    ensures forall m :: m in a <==> m in b
  {
    forall m ensures m in a <==> m in b {
      if m in a {
        var i :| 0 <= i < |a| && a[i] == m;
        assert b[partner[i]] in b;
      }
      if m in b {
        var j :| 0 <= j < |b| && b[j] == m;
        PartnerTaken(a, b, partner, j);
        var i :| 0 <= i < |partner| && partner[i] == j;
        assert a[i] in a;
      }
    }
  }

  /** For each member of the first object, where its equivalent is in the second. */
  ghost function Partners(a: seq<Member>, b: seq<Member>): (p: seq<nat>)
    requires Equiv(Obj(a), Obj(b))
    ensures |p| == |a|
    ensures forall i :: 0 <= i < |a| ==>
      p[i] < |b| && a[i].key == b[p[i]].key && Equiv(a[i].value, b[p[i]].value)
  {
    seq(|a|, i requires 0 <= i < |a| =>
      assert HasPartner(a[i], b);
      var j: nat :| j < |b| && a[i].key == b[j].key && Equiv(a[i].value, b[j].value); j)
  }

  /** An injection of a finite range into itself is onto: no key of b is left over. */
  lemma {:induction false} PartnerTaken(a: seq<Member>, b: seq<Member>, p: seq<nat>, j: nat)
    requires DistinctKeys(a, KeyOf) && |a| == |b| == |p| && j < |b|
    requires forall i :: 0 <= i < |a| ==> p[i] < |b| && a[i] == b[p[i]]
    ensures j in p
  {
    if j !in p {
      forall i, k | 0 <= i < k < |p| ensures p[i] != p[k] {
        assert KeyOf(a[i]) != KeyOf(a[k]);
      }
      DistinctBelow(p, |b|, j);
    }
  }

  ghost predicate Distinct(p: seq<nat>) { forall i, k :: 0 <= i < k < |p| ==> p[i] != p[k] }

  ghost predicate Below(p: seq<nat>, n: nat) { forall i :: 0 <= i < |p| ==> p[i] < n }

  lemma {:induction false} BelowWithoutTop(p: seq<nat>, n: nat)
    requires Below(p, n + 1) && n !in p
    ensures Below(p, n)
  {
    forall i | 0 <= i < |p| ensures p[i] < n { assert p[i] in p; }
  }

  lemma {:induction false} RemoveTop(p: seq<nat>, n: nat, i: nat) returns (q: seq<nat>)
    requires Distinct(p) && Below(p, n + 1) && i < |p| && p[i] == n
    ensures Distinct(q) && Below(q, n) && |q| == |p| - 1
    ensures forall x :: x in q ==> x in p
  {
    q := p[..i] + p[i + 1..];
    forall k | 0 <= k < |q| ensures q[k] == (if k < i then p[k] else p[k + 1]) && q[k] in p {
    }
  }

  /** Distinct naturals below n are at most n, and fewer if they miss one of them. */
  lemma {:induction false} DistinctAtMost(p: seq<nat>, n: nat)
    requires Distinct(p) && Below(p, n)
    ensures |p| <= n
    decreases n
  {
    if p != [] {
      assert p[0] < n;
      if n - 1 in p {
        var i :| 0 <= i < |p| && p[i] == n - 1;
        var q := RemoveTop(p, n - 1, i);
        DistinctAtMost(q, n - 1);
      } else {
        BelowWithoutTop(p, n - 1);
        DistinctAtMost(p, n - 1);
      }
    }
  }

  lemma {:induction false} DistinctBelow(p: seq<nat>, n: nat, missing: nat)
    requires Distinct(p) && Below(p, n) && missing < n && missing !in p
    ensures |p| < n
    decreases n
  {
    if missing == n - 1 {
      BelowWithoutTop(p, n - 1);
      DistinctAtMost(p, n - 1);
    } else if n - 1 in p {
      var i :| 0 <= i < |p| && p[i] == n - 1;
      var q := RemoveTop(p, n - 1, i);
      DistinctBelow(q, n - 1, missing);
    } else {
      BelowWithoutTop(p, n - 1);
      DistinctBelow(p, n - 1, missing);
    }
  }

  // ---- the printers ---------------------------------------------------------------

  /** The compose printer: members in the order of their sorted keys. */
  function Composed(v: Json): Text
    decreases v, 0
  {
    match v
    case Arr(items) => [OPEN_BRACKET] + ComposedItems(items) + [CLOSE_BRACKET]
    case Obj(members) =>
      SortElements(members, KeyOf);
      [OPEN_BRACE] + ComposedMembers(v, SortByKey(members, KeyOf)) + [CLOSE_BRACE]
    case _ => Print(v)
  }

  function ComposedItems(items: seq<Json>): Text
    decreases items, 0
  {
    if items == [] then []
    else if |items| == 1 then Composed(items[0])
    else Composed(items[0]) + [COMMA] + ComposedItems(items[1..])
  }

  function ComposedMembers(parent: Json, ms: seq<Member>): Text
    requires parent.Obj? && forall m :: m in ms ==> m in parent.members
    decreases parent, 0, |ms|
  {
    if ms == [] then []
    else
      assert ms[0] in parent.members;
      var first := Quote(ms[0].key) + [COLON] + Composed(ms[0].value);
      if |ms| == 1 then first else first + [COMMA] + ComposedMembers(parent, ms[1..])
  }

  /** The dynamics printer: JSON.stringify of the cloned value. */
  function Dynamics(v: Json): Text { Print(Normalize(IndicesFirst, v)) }

  /** Printing from sorted keys is printing the normal form. */
  lemma {:induction false} ComposedIsNormalText(v: Json)
    requires Plain(v)
    ensures Composed(v) == Print(Normalize(ByKey, v))
    decreases v, 1
  {
    match v {
      case Arr(items) => ComposedItemsNormal(items);
      case Obj(members) =>
        var sorted := SortByKey(members, KeyOf);
        SortElements(members, KeyOf);
        ComposedMembersNormal(v, sorted);
        SortCommutes(ByKey, members);
      case _ =>
    }
  }

  lemma {:induction false} ComposedItemsNormal(items: seq<Json>)
    requires Plain(Arr(items))
    ensures ComposedItems(items) == PrintItems(Normalize(ByKey, Arr(items)).items)
    decreases items, 0
  {
    if items != [] {
      var normal := Normalize(ByKey, Arr(items)).items;
      ComposedIsNormalText(items[0]);
      ComposedItemsNormal(items[1..]);
      assert normal[1..] == Normalize(ByKey, Arr(items[1..])).items;
    }
  }

  lemma {:induction false} ComposedMembersNormal(parent: Json, ms: seq<Member>)
    requires parent.Obj? && Plain(parent) && forall m :: m in ms ==> m in parent.members
    ensures ComposedMembers(parent, ms) == PrintMembers(NormalizeMembers(ByKey, ms))
    decreases parent, 0, |ms|
  {
    if ms != [] {
      var normal := NormalizeMembers(ByKey, ms);
      assert ms[0] in ms && ms[0] in parent.members;
      ComposedIsNormalText(ms[0].value);
      ComposedMembersNormal(parent, ms[1..]);
      assert normal[1..] == NormalizeMembers(ByKey, ms[1..]);
    }
  }

  /** Sorting by key and normalizing values member by member commute. */
  lemma {:induction false} SortCommutes(order: Order, members: seq<Member>)
    ensures NormalizeMembers(order, SortByKey(members, KeyOf))
         == SortByKey(NormalizeMembers(order, members), KeyOf)
  {
    if members != [] {
      var normal := NormalizeMembers(order, members);
      SortCommutes(order, members[1..]);
      assert normal[1..] == NormalizeMembers(order, members[1..]);
      InsertCommutes(order, members[0], SortByKey(members[1..], KeyOf));
    }
  }

  lemma {:induction false} InsertCommutes(order: Order, m: Member, ms: seq<Member>)
    ensures NormalizeMembers(order, Insert(m, ms, KeyOf))
         == Insert(Member(m.key, Normalize(order, m.value)), NormalizeMembers(order, ms), KeyOf)
  {
    if ms != [] {
      InsertCommutes(order, m, ms[1..]);
      var normal := NormalizeMembers(order, ms);
      assert normal[1..] == NormalizeMembers(order, ms[1..]);
    }
  }

  // ---- main results -----------------------------------------------------------------

  /** The compose printer is unambiguous: one text, one value. */
  lemma {:induction false} ComposedIsUnambiguous(v: Json, w: Json)
    requires Plain(v) && Plain(w)
    ensures Composed(v) == Composed(w) <==> Equiv(v, w)
  {
    ComposedIsNormalText(v);
    ComposedIsNormalText(w);
    NormalTextIsUnambiguous(ByKey, v, w);
  }

  lemma {:induction false} DynamicsIsUnambiguous(v: Json, w: Json)
    requires Plain(v) && Plain(w)
    ensures Dynamics(v) == Dynamics(w) <==> Equiv(v, w)
  {
    NormalTextIsUnambiguous(IndicesFirst, v, w);
  }

  lemma {:induction false} NormalTextIsUnambiguous(order: Order, v: Json, w: Json)
    requires Plain(v) && Plain(w)
    ensures Print(Normalize(order, v)) == Print(Normalize(order, w)) <==> Equiv(v, w)
  {
    hide Normalize, Print, Plain, Equiv, Clean;
    if Print(Normalize(order, v)) == Print(Normalize(order, w)) {
      NormalizeKeepsPlain(order, v);
      NormalizeKeepsPlain(order, w);
      ParseOfPrint(Normalize(order, v));
      ParseOfPrint(Normalize(order, w));
      EqualNormalFormsAreEquivalent(order, v, w);
    }
    if Equiv(v, w) {
      EquivalentValuesNormalizeAlike(order, v, w);
    }
  }

  lemma {:induction false} NormalFormIsEquivalent(order: Order, v: Json)
    requires Plain(v)
    ensures Equiv(Normalize(order, v), v)
    decreases v
  {
    hide Arrange;
    match v {
      case Arr(items) =>
        forall i | 0 <= i < |items| ensures Equiv(Normalize(order, items[i]), items[i]) {
          NormalFormIsEquivalent(order, items[i]);
        }
      case Obj(members) =>
        var ms := NormalizeMembers(order, members);
        var arranged := Arrange(order, ms);
        ArrangeElements(order, ms);
        forall i | 0 <= i < |arranged| ensures HasPartner(arranged[i], members) {
          assert arranged[i] in arranged;
          var j :| 0 <= j < |ms| && ms[j] == arranged[i];
          NormalFormIsEquivalent(order, members[j].value);
        }
      case _ =>
    }
  }

  /** Reading the dynamics text back gives an equivalent value that prints alike. */
  lemma {:induction false} DynamicsIsStable(v: Json)
    requires Plain(v)
    ensures Parse(Dynamics(v)).Some? && Plain(Parse(Dynamics(v)).value)
    ensures Equiv(Parse(Dynamics(v)).value, v)
    ensures Dynamics(Parse(Dynamics(v)).value) == Dynamics(v)
  {
    NormalizeKeepsPlain(IndicesFirst, v);
    ParseOfPrint(Normalize(IndicesFirst, v));
    NormalFormIsEquivalent(IndicesFirst, v);
    DynamicsIsUnambiguous(Normalize(IndicesFirst, v), v);
  }

  /** The compose text likewise: parsing a journal and printing it again changes nothing. */
  lemma {:induction false} ComposedIsStable(v: Json)
    requires Plain(v)
    ensures Parse(Composed(v)).Some? && Plain(Parse(Composed(v)).value)
    ensures Equiv(Parse(Composed(v)).value, v)
    ensures Composed(Parse(Composed(v)).value) == Composed(v)
  {
    ComposedIsNormalText(v);
    NormalizeKeepsPlain(ByKey, v);
    ParseOfPrint(Normalize(ByKey, v));
    NormalFormIsEquivalent(ByKey, v);
    ComposedIsUnambiguous(Normalize(ByKey, v), v);
  }

  /** The two arrangements differ once an object has indices among its keys:
      sorted text puts "10" before "9", a new object lists 9 before 10. */
  lemma {:induction false} IndicesAreNotSortedAsText(ten: Member, nine: Member)
    requires ten.key == [49, 48] && nine.key == [57]
    ensures Arrange(ByKey, [ten, nine]) == [ten, nine]
    ensures Arrange(IndicesFirst, [ten, nine]) == [nine, ten]
  {
    SortOfPair(ten, nine);
    IndexOfDigits();
    assert [ten, nine][1..] == [nine] && [nine][1..] == [];
    assert IndexMembers([nine]) == [nine];
    assert InsertByIndex(ten, [nine]) == [nine] + InsertByIndex(ten, [nine][1..]);
    assert NamedMembers([nine]) == NamedMembers([nine][1..]) == [];
    assert NamedMembers([ten, nine]) == NamedMembers([ten, nine][1..]);
  }

  lemma {:induction false} SortOfPair(a: Member, b: Member)
    requires Less(a.key, b.key)
    ensures SortByKey([a, b], KeyOf) == [a, b]
  {
    LessAsymmetric(a.key, b.key);
    assert [a, b][1..] == [b] && [b][1..] == [];
    assert SortByKey([b], KeyOf) == [b];
  }

  lemma {:induction false} IndexOfDigits()
    ensures ArrayIndex([57]) == Some(9) && ArrayIndex([49, 48]) == Some(10)
  {
    var nine: seq<Numbers.Digit> := [57];
    var ten: seq<Numbers.Digit> := [49, 48];
    Numbers.TakeDigitsOfDigits(nine, []);
    Numbers.TakeDigitsOfDigits(ten, []);
    assert nine + [] == nine && ten + [] == ten;
    assert nine[..0] == [] && ten[..1] == [49] && [49][..0] == [];
  }

  // ---- the order of members ---------------------------------------------------------------------

  lemma {:induction false} DigitsAreCanonical(ds: seq<Numbers.Digit>)
    requires ds != [] && (|ds| > 1 ==> ds[0] != Numbers.CHAR_ZERO)
    ensures Numbers.Decimal(Numbers.FromDecimal(ds)) == ds
    ensures |ds| > 1 ==> Numbers.FromDecimal(ds) >= 10
  {
    var init, last := ds[..|ds| - 1], ds[|ds| - 1];
    if |ds| == 1 {
      assert init == [] && Numbers.FromDecimal(init) == 0;
    } else {
      DigitsAreCanonical(init);
      NotZero(init);
      var m: int := last;
      assert Numbers.FromDecimal(ds) == 10 * Numbers.FromDecimal(init) + (m - 48);
      assert Numbers.FromDecimal(ds) / 10 == Numbers.FromDecimal(init);
      assert ds == init + [last];
    }
  }

  lemma {:induction false} NotZero(ds: seq<Numbers.Digit>)
    requires ds != [] && ds[0] != Numbers.CHAR_ZERO
    ensures Numbers.FromDecimal(ds) >= 1
  {
    if |ds| > 1 { NotZero(ds[..|ds| - 1]); } else { assert Numbers.FromDecimal(ds[..0]) == 0; }
  }

  lemma {:induction false} DecimalIsCanonical(n: nat)
    ensures |Numbers.Decimal(n)| > 1 ==> Numbers.Decimal(n)[0] != Numbers.CHAR_ZERO
  {
    if n >= 10 { Numbers.NoLeadingZero(n); }
  }

  /** A key is an array index exactly if it is the decimal text of a number below 4294967295. */
  lemma {:induction false} ArrayIndexExactly(key: Text, n: nat)
    ensures ArrayIndex(key) == Some(n) <==> key == Numbers.Decimal(n) && n < 4_294_967_295
  {
    hide Numbers.TakeDigits, Numbers.FromDecimal, Numbers.Decimal;
    var ds := Numbers.TakeDigits(key);
    if |ds| == |key| { assert ds == key; }
    if ArrayIndex(key) == Some(n) { DigitsAreCanonical(ds); }
    if key == Numbers.Decimal(n) {
      Numbers.FromDecimalOfDecimal(n);
      DecimalIsCanonical(n);
      Numbers.TakeDigitsOfDigits(Numbers.Decimal(n), []);
      assert Numbers.Decimal(n) + [] == key;
    }
  }

  /** Which of two keys comes first in a text. */
  predicate Before(order: Order, a: Text, b: Text) {
    if order.ByKey? || (ArrayIndex(a).None? && ArrayIndex(b).None?) then Less(a, b)
    else ArrayIndex(a).Some? && (ArrayIndex(b).None? || ArrayIndex(a).value < ArrayIndex(b).value)
  }

  ghost predicate InOrder(order: Order, ms: seq<Member>) {
    forall i, j :: 0 <= i < j < |ms| ==> Before(order, ms[i].key, ms[j].key)
  }

  /** Every object at every depth has its members in that order. */
  ghost predicate AllOrdered(order: Order, v: Json) {
    match v
    case Arr(items) => forall i :: 0 <= i < |items| ==> AllOrdered(order, items[i])
    case Obj(members) =>
      InOrder(order, members) && forall i :: 0 <= i < |members| ==> AllOrdered(order, members[i].value)
    case _ => true
  }

  lemma {:induction false} InsertByIndexOrdered(m: Member, ms: seq<Member>)
    requires ArrayIndex(m.key).Some? && forall x :: x in ms ==> ArrayIndex(x.key).Some?
    requires InOrder(IndicesFirst, ms)
    requires forall x :: x in ms ==> ArrayIndex(x.key) != ArrayIndex(m.key)
    ensures InOrder(IndicesFirst, InsertByIndex(m, ms))
  {
    hide ArrayIndex;
    if ms != [] {
      assert forall x :: x in ms[1..] ==> x in ms;
      InsertByIndexOrdered(m, ms[1..]);
      InsertByIndexElements(m, ms[1..]);
      var r := InsertByIndex(m, ms);
      var rest := InsertByIndex(m, ms[1..]);
      if ArrayIndex(m.key).value < ArrayIndex(ms[0].key).value {
        forall i, j | 0 <= i < j < |r| ensures Before(IndicesFirst, r[i].key, r[j].key) {
          assert r[j] in ms && (j > 1 ==> Before(IndicesFirst, ms[0].key, ms[j - 1].key));
        }
      } else {
        forall j | 0 <= j < |rest| ensures Before(IndicesFirst, ms[0].key, rest[j].key) {
          assert rest[j] in rest && ms[0] in ms;
          if rest[j] != m {
            var k :| 0 <= k < |ms[1..]| && ms[1..][k] == rest[j];
            assert Before(IndicesFirst, ms[0].key, ms[k + 1].key);
          }
        }
      }
    }
  }

  lemma {:induction false} SameIndexSameKey(a: Text, b: Text)
    requires ArrayIndex(a).Some? && ArrayIndex(a) == ArrayIndex(b)
    ensures a == b
  {
    hide ArrayIndex;
    ArrayIndexExactly(a, ArrayIndex(a).value);
    ArrayIndexExactly(b, ArrayIndex(a).value);
  }

  lemma {:induction false} IndexMembersOrdered(ms: seq<Member>)
    requires DistinctKeys(ms, KeyOf)
    ensures InOrder(IndicesFirst, IndexMembers(ms))
  {
    hide ArrayIndex;
    if ms != [] {
      TailDistinct(ms);
      IndexMembersOrdered(ms[1..]);
      var rest := IndexMembers(ms[1..]);
      if ArrayIndex(ms[0].key).Some? {
        forall x | x in rest ensures ArrayIndex(x.key) != ArrayIndex(ms[0].key) {
          if ArrayIndex(x.key) == ArrayIndex(ms[0].key) { SameIndexSameKey(x.key, ms[0].key); }
        }
        InsertByIndexOrdered(ms[0], rest);
      }
    }
  }

  lemma {:induction false} NamedMembersOrdered(ms: seq<Member>)
    requires SortedByKey(ms, KeyOf)
    ensures SortedByKey(NamedMembers(ms), KeyOf)
  {
    hide ArrayIndex, Less;
    if ms != [] {
      forall i, j | 0 <= i < j < |ms[1..]| ensures Less(KeyOf(ms[1..][i]), KeyOf(ms[1..][j])) {
        assert Less(KeyOf(ms[i + 1]), KeyOf(ms[j + 1]));
      }
      NamedMembersOrdered(ms[1..]);
      var rest := NamedMembers(ms[1..]);
      forall j | 0 <= j < |rest| ensures Less(KeyOf(ms[0]), KeyOf(rest[j])) {
        assert rest[j] in ms[1..];
        var k :| 0 <= k < |ms[1..]| && ms[1..][k] == rest[j];
        assert Less(KeyOf(ms[0]), KeyOf(ms[k + 1]));
      }
    }
  }

  lemma {:induction false} ArrangeOrders(order: Order, ms: seq<Member>)
    requires DistinctKeys(ms, KeyOf)
    ensures InOrder(order, Arrange(order, ms))
  {
    hide ArrayIndex, Less, SortByKey;
    SortSorts(ms, KeyOf);
    var sorted := SortByKey(ms, KeyOf);
    if order.ByKey? {
      forall i, j | 0 <= i < j < |sorted| ensures Less(sorted[i].key, sorted[j].key) {
        assert Less(KeyOf(sorted[i]), KeyOf(sorted[j]));
      }
    } else {
      SortedIsDistinct(sorted, KeyOf);
      IndexMembersOrdered(sorted);
      NamedMembersOrdered(sorted);
      IndicesThenNames(IndexMembers(sorted), NamedMembers(sorted));
    }
  }

  lemma {:induction false} IndicesThenNames(a: seq<Member>, b: seq<Member>)
    requires InOrder(IndicesFirst, a) && SortedByKey(b, KeyOf)
    requires forall x :: x in a ==> ArrayIndex(x.key).Some?
    requires forall x :: x in b ==> ArrayIndex(x.key).None?
    ensures InOrder(IndicesFirst, a + b)
  {
    hide ArrayIndex, Less;
    var c := a + b;
    forall i, j | 0 <= i < j < |c| ensures Before(IndicesFirst, c[i].key, c[j].key) {
      if j < |a| {
        assert c[i] == a[i] && c[j] == a[j];
      } else if i < |a| {
        assert c[i] == a[i] && c[i] in a && c[j] == b[j - |a|] && c[j] in b;
      } else {
        var x, y := b[i - |a|], b[j - |a|];
        assert x in b && y in b && Less(KeyOf(x), KeyOf(y));
      }
    }
  }

  /** The normal form has its members in order: by UTF-16 code units, or the array indices by number
      and then the other keys. */
  lemma {:induction false} NormalFormIsOrdered(order: Order, v: Json)
    requires Plain(v)
    ensures AllOrdered(order, Normalize(order, v))
    decreases v
  {
    hide Arrange, Before;
    match v {
      case Arr(items) =>
        forall i | 0 <= i < |items| ensures AllOrdered(order, Normalize(order, items[i])) {
          NormalFormIsOrdered(order, items[i]);
        }
      case Obj(members) =>
        var ns := NormalizeMembers(order, members);
        NormalizeMembersDistinct(order, members);
        ArrangeOrders(order, ns);
        ArrangeElements(order, ns);
        var ms := Arrange(order, ns);
        forall i | 0 <= i < |ms| ensures AllOrdered(order, ms[i].value) {
          assert ms[i] in ns;
          var k :| 0 <= k < |ns| && ns[k] == ms[i];
          NormalFormIsOrdered(order, members[k].value);
        }
      case _ =>
    }
  }
}
