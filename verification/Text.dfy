/** JavaScript strings as sequences of UTF-16 code units, with the order that
    `<` and the default sort give them. */
module Text {

  type CodeUnit = c: int | 0 <= c < 0x10000
  type Text = seq<CodeUnit>

  function Unit(c: char): CodeUnit { if (c as int) < 0x80 then c as int else 0 }

  /** An ASCII text as code units. */
  function Ascii(s: string): (t: Text)
    ensures |t| == |s| && forall i :: 0 <= i < |t| ==> t[i] == Unit(s[i])
  {
    seq(|s|, i requires 0 <= i < |s| => Unit(s[i]))
  }

  /** Strict lexicographic order on code units. */
  predicate Less(a: Text, b: Text) {
    if b == [] then false
    else if a == [] then true
    else if a[0] != b[0] then a[0] < b[0]
    else Less(a[1..], b[1..])
  }

  function CompareUtf16(a: Text, b: Text): int {
    if a == b then 0 else if Less(a, b) then -1 else 1
  }

  lemma {:induction false} LessIrreflexive(a: Text)
    ensures !Less(a, a)
  {
    if a != [] { LessIrreflexive(a[1..]); }
  }

  lemma {:induction false} LessTransitive(a: Text, b: Text, c: Text)
    requires Less(a, b) && Less(b, c)
    ensures Less(a, c)
  {
    if a != [] && a[0] == b[0] && b[0] == c[0] {
      LessTransitive(a[1..], b[1..], c[1..]);
    }
  }

  lemma {:induction false} LessTotal(a: Text, b: Text)
    ensures Less(a, b) || a == b || Less(b, a)
  {
    if a != [] && b != [] && a[0] == b[0] {
      LessTotal(a[1..], b[1..]);
      if a[1..] == b[1..] {
        assert a == [a[0]] + a[1..] && b == [b[0]] + b[1..];
      }
    }
  }

  lemma {:induction false} LessAsymmetric(a: Text, b: Text)
    requires Less(a, b)
    ensures !Less(b, a)
  {
    if Less(b, a) {
      LessTransitive(a, b, a);
      LessIrreflexive(a);
    }
  }

  /** A common prefix does not matter to the order. */
  lemma {:induction false} LessBehind(p: Text, a: Text, b: Text)
    requires Less(a, b)
    ensures Less(p + a, p + b)
  {
    if p == [] {
      assert p + a == a && p + b == b;
    } else {
      LessBehind(p[1..], a, b);
      assert (p + a)[1..] == p[1..] + a && (p + b)[1..] == p[1..] + b;
    }
  }

  /** The texts agree up to some place, and there the first has the smaller unit or has ended. */
  predicate SmallerAt(a: Text, b: Text, k: nat) {
    k <= |a| && k < |b| && a[..k] == b[..k] && (k < |a| ==> a[k] < b[k])
  }

  lemma {:induction false} LessExactly(a: Text, b: Text)
    ensures Less(a, b) <==> exists k :: 0 <= k <= |a| && SmallerAt(a, b, k)
  {
    if a == [] || b == [] {
      assert b != [] ==> SmallerAt(a, b, 0);
    } else if a[0] != b[0] {
      if a[0] < b[0] { assert SmallerAt(a, b, 0); }
      forall k | 0 < k <= |a| ensures !SmallerAt(a, b, k) {
        assert k < |b| ==> a[..k][0] != b[..k][0];
      }
    } else {
      LessExactly(a[1..], b[1..]);
      if k :| 0 <= k <= |a[1..]| && SmallerAt(a[1..], b[1..], k) {
        assert a[..k + 1] == [a[0]] + a[1..][..k] && b[..k + 1] == [b[0]] + b[1..][..k];
        assert SmallerAt(a, b, k + 1);
      }
      if k :| 0 <= k <= |a| && SmallerAt(a, b, k) {
        assert k > 0 ==> a[1..][..k - 1] == a[..k][1..] && b[1..][..k - 1] == b[..k][1..];
        assert k > 0 && SmallerAt(a[1..], b[1..], k - 1);
      }
    }
  }

  // ---- sorting records by a text key ------------------------------------

  ghost predicate DistinctKeys<T(!new)>(s: seq<T>, key: T -> Text) {
    forall i, j :: 0 <= i < j < |s| ==> key(s[i]) != key(s[j])
  }

  ghost predicate SortedByKey<T(!new)>(s: seq<T>, key: T -> Text) {
    forall i, j :: 0 <= i < j < |s| ==> Less(key(s[i]), key(s[j]))
  }

  function Insert<T>(x: T, s: seq<T>, key: T -> Text): seq<T> {
    if s == [] then [x]
    else if Less(key(s[0]), key(x)) then [s[0]] + Insert(x, s[1..], key)
    else [x] + s
  }

  function SortByKey<T>(s: seq<T>, key: T -> Text): seq<T> {
    if s == [] then [] else Insert(s[0], SortByKey(s[1..], key), key)
  }

  lemma {:induction false} InsertElements<T(!new)>(x: T, s: seq<T>, key: T -> Text)
    ensures |Insert(x, s, key)| == |s| + 1
    ensures forall y :: y in Insert(x, s, key) <==> y == x || y in s
  {
    if s != [] {
      InsertElements(x, s[1..], key);
      assert s == [s[0]] + s[1..];
    }
  }

  lemma {:induction false} InsertSorted<T(!new)>(x: T, s: seq<T>, key: T -> Text)
    requires SortedByKey(s, key)
    requires forall y :: y in s ==> key(y) != key(x)
    ensures SortedByKey(Insert(x, s, key), key)
  {
    if s != [] {
      if Less(key(s[0]), key(x)) {
        InsertSorted(x, s[1..], key);
        InsertElements(x, s[1..], key);
        var t := Insert(x, s[1..], key);
        forall j | 0 <= j < |t| ensures Less(key(s[0]), key(t[j])) {
          var y := t[j];
          assert y in t;
          if y != x {
            assert y in s[1..];
            var j :| 0 <= j < |s[1..]| && s[1..][j] == y;
            assert s[j + 1] == y;
          }
        }
      } else {
        LessTotal(key(s[0]), key(x));
        forall y | y in s ensures Less(key(x), key(y)) {
          assert s[0] in s;
          var j :| 0 <= j < |s| && s[j] == y;
          if j > 0 { LessTransitive(key(x), key(s[0]), key(y)); }
        }
      }
    }
  }

  /** Sorting keeps the elements and, on distinct keys, orders them strictly. */
  lemma {:induction false} SortElements<T(!new)>(s: seq<T>, key: T -> Text)
    ensures |SortByKey(s, key)| == |s|
    ensures forall y :: y in SortByKey(s, key) <==> y in s
  {
    if s != [] {
      SortElements(s[1..], key);
      InsertElements(s[0], SortByKey(s[1..], key), key);
      assert s == [s[0]] + s[1..];
    }
  }

  lemma {:induction false} SortSorts<T(!new)>(s: seq<T>, key: T -> Text)
    requires DistinctKeys(s, key)
    ensures SortedByKey(SortByKey(s, key), key)
  {
    if s != [] {
      SortSorts(s[1..], key);
      SortElements(s[1..], key);
      forall y | y in SortByKey(s[1..], key) ensures key(y) != key(s[0]) {
        assert y in s[1..];
        var j :| 0 <= j < |s[1..]| && s[1..][j] == y;
        assert s[j + 1] == y;
      }
      InsertSorted(s[0], SortByKey(s[1..], key), key);
    }
  }

  /** Two strictly sorted sequences with the same elements are one sequence. */
  lemma {:induction false} SortedUnique<T(!new)>(a: seq<T>, b: seq<T>, key: T -> Text)
    requires SortedByKey(a, key) && SortedByKey(b, key)
    requires forall y :: y in a <==> y in b
    ensures a == b
  {
    assert a != [] ==> a[0] in a;
    assert b != [] ==> b[0] in b;
    if a != [] && b != [] {
      SameFirst(a, b, key);
      forall y ensures y in a[1..] <==> y in b[1..] {
        TailElements(a, key, y);
        TailElements(b, key, y);
      }
      SortedUnique(a[1..], b[1..], key);
      assert a == [a[0]] + a[1..] && b == [b[0]] + b[1..];
    }
  }

  lemma {:induction false} SameFirst<T(!new)>(a: seq<T>, b: seq<T>, key: T -> Text)
    requires a != [] && b != []
    requires SortedByKey(a, key) && SortedByKey(b, key)
    requires forall y :: y in a <==> y in b
    ensures a[0] == b[0]
  {
    assert a[0] in b && b[0] in a;
    var i :| 0 <= i < |b| && b[i] == a[0];
    var j :| 0 <= j < |a| && a[j] == b[0];
    if i != 0 && j != 0 {
      LessAsymmetric(key(b[0]), key(a[0]));
    }
  }

  lemma {:induction false} TailElements<T(!new)>(a: seq<T>, key: T -> Text, y: T)
    requires a != [] && SortedByKey(a, key)
    ensures y in a[1..] <==> y in a && y != a[0]
  {
    LessIrreflexive(key(a[0]));
    if y in a && y != a[0] {
      var j :| 0 <= j < |a| && a[j] == y;
      assert a[1..][j - 1] == y;
    }
    if y in a[1..] {
      var j :| 0 <= j < |a[1..]| && a[1..][j] == y;
      assert a[j + 1] == y;
    }
  }

  /** A sort with distinct keys depends only on the elements, not on their order. */
  lemma {:induction false} SortOfSameElements<T(!new)>(a: seq<T>, b: seq<T>, key: T -> Text)
    requires DistinctKeys(a, key) && DistinctKeys(b, key)
    requires forall y :: y in a <==> y in b
    ensures SortByKey(a, key) == SortByKey(b, key)
  {
    SortSorts(a, key);
    SortSorts(b, key);
    SortElements(a, key);
    SortElements(b, key);
    SortedUnique(SortByKey(a, key), SortByKey(b, key), key);
  }

  lemma {:induction false} SortedIsDistinct<T(!new)>(s: seq<T>, key: T -> Text)
    requires SortedByKey(s, key)
    ensures DistinctKeys(s, key)
  {
    forall i, j | 0 <= i < j < |s| ensures key(s[i]) != key(s[j]) {
      LessIrreflexive(key(s[i]));
    }
  }

  // ---- sorting texts -------------------------------------------------------

  function Itself(t: Text): Text { t }

  /** Each text before the next: the order that parsers ask for. */
  predicate Strict(s: seq<Text>) { forall i :: 0 < i < |s| ==> Less(s[i - 1], s[i]) }

  /** A sorted list is strict exactly when nothing was in it twice. */
  lemma {:induction false} SortIsStrict(s: seq<Text>)
    ensures Strict(SortByKey(s, Itself)) <==> DistinctKeys(s, Itself)
  {
    hide Less;
    var sorted := SortByKey(s, Itself);
    if DistinctKeys(s, Itself) {
      SortSorts(s, Itself);
    }
    if Strict(sorted) {
      StrictIsSorted(sorted);
      SortedIsDistinct(sorted, Itself);
      SortKeepsCounts(s);
      DistinctByCounts(sorted, s);
    }
  }

  lemma {:induction false} StrictIsSorted(s: seq<Text>)
    requires Strict(s)
    ensures SortedByKey(s, Itself)
  {
    hide Less;
    forall i, j | 0 <= i < j < |s| ensures Less(s[i], s[j]) { StrictBetween(s, i, j); }
  }

  lemma {:induction false} StrictBetween(s: seq<Text>, i: nat, j: nat)
    requires Strict(s) && i < j < |s|
    ensures Less(s[i], s[j])
    decreases j - i
  {
    hide Less;
    if i + 1 < j {
      StrictBetween(s, i, j - 1);
      LessTransitive(s[i], s[j - 1], s[j]);
    }
  }

  lemma {:induction false} InsertKeepsCounts(x: Text, s: seq<Text>)
    ensures multiset(Insert(x, s, Itself)) == multiset{x} + multiset(s)
  {
    hide Less;
    if s != [] && Less(Itself(s[0]), Itself(x)) {
      InsertKeepsCounts(x, s[1..]);
      assert s == [s[0]] + s[1..];
    } else {
      assert Insert(x, s, Itself) == [x] + s;
    }
  }

  lemma {:induction false} SortKeepsCounts(s: seq<Text>)
    ensures multiset(SortByKey(s, Itself)) == multiset(s)
  {
    hide Less;
    if s != [] {
      SortKeepsCounts(s[1..]);
      InsertKeepsCounts(s[0], SortByKey(s[1..], Itself));
      assert s == [s[0]] + s[1..];
    }
  }

  lemma {:induction false} DistinctByCounts(a: seq<Text>, b: seq<Text>)
    requires multiset(a) == multiset(b) && DistinctKeys(a, Itself)
    ensures DistinctKeys(b, Itself)
  {
    forall i, j | 0 <= i < j < |b| ensures Itself(b[i]) != Itself(b[j]) {
      if b[i] == b[j] {
        TwiceCounts(b, i, j);
        OnceCounts(a, b[i]);
      }
    }
  }

  lemma {:induction false} TwiceCounts(s: seq<Text>, i: nat, j: nat)
    requires i < j < |s| && s[i] == s[j]
    ensures multiset(s)[s[i]] >= 2
  {
    assert s == s[..i] + [s[i]] + s[i + 1..j] + [s[j]] + s[j + 1..];
    assert multiset(s) ==
      multiset(s[..i]) + multiset{s[i]} + multiset(s[i + 1..j]) + multiset{s[j]} + multiset(s[j + 1..]);
  }

  lemma {:induction false} OnceCounts(s: seq<Text>, t: Text)
    requires DistinctKeys(s, Itself)
    ensures multiset(s)[t] <= 1
  {
    if s != [] {
      assert s == [s[0]] + s[1..];
      OnceCounts(s[1..], t);
      if t == s[0] {
        forall i | 0 <= i < |s[1..]| ensures s[1..][i] != t { assert Itself(s[0]) != Itself(s[i + 1]); }
      }
    }
  }
}
