/** The order on portable lock claims. The chained comparator is the lexicographic order of
    one flattened list of texts, so it is a strict total order and every permutation of the
    claims sorts to one list. */
module ReceiptLock {
  import opened Text
  import Numbers

  datatype Source = Source(path: Text, sha256: Text)
  datatype Tool = Tool(name: Text, version: Text, manifest: Text, entry: Text, lock: Text)

  datatype Claim = Claim(
    manager: Text, lockVersion: nat, rootName: Text, rootVersion: Text, rootManifest: Text, lock: Text,
    entry: Text, packageName: Text, packageVersion: Text, packageManifest: Text,
    sources: seq<Source>, tools: seq<Tool>)

  /** String(n) of a non-negative integer. */
  function Digits(n: nat): Text { Numbers.Decimal(n) }

  lemma {:induction false} DigitsAreInjective(m: nat, n: nat)
    requires Digits(m) == Digits(n)
    ensures m == n
  {
    Numbers.FromDecimalOfDecimal(m);
    Numbers.FromDecimalOfDecimal(n);
  }

  // ---- the comparator, as written ---------------------------------------------------------

  function OrElse(first: int, second: int): int { if first != 0 then first else second }

  function CompareSource(a: Source, b: Source): int {
    OrElse(CompareUtf16(a.path, b.path), CompareUtf16(a.sha256, b.sha256))
  }

  function CompareTool(a: Tool, b: Tool): int {
    OrElse(CompareUtf16(a.name, b.name),
    OrElse(CompareUtf16(a.version, b.version),
    OrElse(CompareUtf16(a.manifest, b.manifest),
    OrElse(CompareUtf16(a.entry, b.entry), CompareUtf16(a.lock, b.lock)))))
  }

  /** The first difference at or after an index, of lists of one length. */
  function SourceDifference(a: seq<Source>, b: seq<Source>, from: nat): int
    requires |a| == |b| && from <= |a|
    decreases |a| - from
  {
    if from == |a| then 0 else OrElse(CompareSource(a[from], b[from]), SourceDifference(a, b, from + 1))
  }

  function ToolDifference(a: seq<Tool>, b: seq<Tool>, from: nat): int
    requires |a| == |b| && from <= |a|
    decreases |a| - from
  {
    if from == |a| then 0 else OrElse(CompareTool(a[from], b[from]), ToolDifference(a, b, from + 1))
  }

  function CompareSources(a: seq<Source>, b: seq<Source>): int {
    if |a| != |b| then CompareUtf16(Digits(|a|), Digits(|b|)) else SourceDifference(a, b, 0)
  }

  function CompareTools(a: seq<Tool>, b: seq<Tool>): int {
    if |a| != |b| then CompareUtf16(Digits(|a|), Digits(|b|)) else ToolDifference(a, b, 0)
  }

  function Compare(a: Claim, b: Claim): int {
    OrElse(CompareUtf16(a.manager, b.manager),
    OrElse(CompareUtf16(Digits(a.lockVersion), Digits(b.lockVersion)),
    OrElse(CompareUtf16(a.rootName, b.rootName),
    OrElse(CompareUtf16(a.rootVersion, b.rootVersion),
    OrElse(CompareUtf16(a.rootManifest, b.rootManifest),
    OrElse(CompareUtf16(a.lock, b.lock),
    OrElse(CompareUtf16(a.entry, b.entry),
    OrElse(CompareUtf16(a.packageName, b.packageName),
    OrElse(CompareUtf16(a.packageVersion, b.packageVersion),
    OrElse(CompareUtf16(a.packageManifest, b.packageManifest),
    OrElse(CompareSources(a.sources, b.sources), CompareTools(a.tools, b.tools))))))))))))
  }

  /** The loops of the two sub-comparators. */
  method CompareSourceDigests(a: seq<Source>, b: seq<Source>) returns (c: int)
    ensures c == CompareSources(a, b)
  {
    if |a| != |b| { return CompareUtf16(Digits(|a|), Digits(|b|)); }
    for index := 0 to |a|
      invariant SourceDifference(a, b, 0) == SourceDifference(a, b, index)
    {
      var diffPath := CompareUtf16(a[index].path, b[index].path);
      if diffPath != 0 { return diffPath; }
      var diffHash := CompareUtf16(a[index].sha256, b[index].sha256);
      if diffHash != 0 { return diffHash; }
    }
    return 0;
  }

  method CompareToolIdentities(a: seq<Tool>, b: seq<Tool>) returns (c: int)
    ensures c == CompareTools(a, b)
  {
    hide CompareUtf16;
    if |a| != |b| { return CompareUtf16(Digits(|a|), Digits(|b|)); }
    for index := 0 to |a|
      invariant ToolDifference(a, b, 0) == ToolDifference(a, b, index)
    {
      var diffName := CompareUtf16(a[index].name, b[index].name);
      if diffName != 0 { return diffName; }
      var diffVersion := CompareUtf16(a[index].version, b[index].version);
      if diffVersion != 0 { return diffVersion; }
      var diffManifest := CompareUtf16(a[index].manifest, b[index].manifest);
      if diffManifest != 0 { return diffManifest; }
      var diffEntry := CompareUtf16(a[index].entry, b[index].entry);
      if diffEntry != 0 { return diffEntry; }
      var diffLock := CompareUtf16(a[index].lock, b[index].lock);
      if diffLock != 0 { return diffLock; }
    }
    return 0;
  }

  // ---- the order it is ------------------------------------------------------------------------

  /** Lexicographic order of lists of texts. */
  function Lex(a: seq<Text>, b: seq<Text>): int {
    if a == [] && b == [] then 0
    else if a == [] then -1
    else if b == [] then 1
    else OrElse(CompareUtf16(a[0], b[0]), Lex(a[1..], b[1..]))
  }

  function FlatSources(s: seq<Source>): seq<Text> {
    if s == [] then [] else [s[0].path, s[0].sha256] + FlatSources(s[1..])
  }

  function FlatTools(s: seq<Tool>): seq<Text> {
    if s == [] then []
    else [s[0].name, s[0].version, s[0].manifest, s[0].entry, s[0].lock] + FlatTools(s[1..])
  }

  function Fixed(c: Claim): seq<Text> {
    [c.manager, Digits(c.lockVersion), c.rootName, c.rootVersion, c.rootManifest, c.lock, c.entry, c.packageName,
     c.packageVersion, c.packageManifest]
  }

  function Flat(c: Claim): seq<Text> {
    Fixed(c) + ([Digits(|c.sources|)] + (FlatSources(c.sources) + ([Digits(|c.tools|)] + FlatTools(c.tools))))
  }

  lemma {:induction false} CompareIsZero(a: Text, b: Text)
    ensures CompareUtf16(a, b) == 0 <==> a == b
  {
  }

  /** A common front is skipped. */
  lemma {:induction false} LexCons(x: Text, y: Text, a: seq<Text>, b: seq<Text>)
    ensures Lex([x] + a, [y] + b) == OrElse(CompareUtf16(x, y), Lex(a, b))
  {
    assert ([x] + a)[1..] == a && ([y] + b)[1..] == b;
  }

  lemma {:induction false} LexOfSources(a: seq<Source>, b: seq<Source>, from: nat, x: seq<Text>, y: seq<Text>)
    requires |a| == |b| && from <= |a|
    ensures Lex(FlatSources(a[from..]) + x, FlatSources(b[from..]) + y)
      == OrElse(SourceDifference(a, b, from), Lex(x, y))
    decreases |a| - from
  {
    hide CompareUtf16, Lex;
    if from == |a| {
      assert [] + x == x && [] + y == y;
    } else {
      LexOfSources(a, b, from + 1, x, y);
      var p, q := a[from], b[from];
      var restA, restB := FlatSources(a[from + 1..]) + x, FlatSources(b[from + 1..]) + y;
      assert a[from..][1..] == a[from + 1..] && b[from..][1..] == b[from + 1..];
      assert FlatSources(a[from..]) + x == [p.path] + ([p.sha256] + restA);
      assert FlatSources(b[from..]) + y == [q.path] + ([q.sha256] + restB);
      LexCons(p.path, q.path, [p.sha256] + restA, [q.sha256] + restB);
      LexCons(p.sha256, q.sha256, restA, restB);
    }
  }

  lemma {:induction false} LexFive(p: Tool, q: Tool, a: seq<Text>, b: seq<Text>)
    ensures Lex([p.name, p.version, p.manifest, p.entry, p.lock] + a,
                [q.name, q.version, q.manifest, q.entry, q.lock] + b)
      == OrElse(CompareTool(p, q), Lex(a, b))
  {
    hide CompareUtf16, Lex;
    var a5, b5 := [p.lock] + a, [q.lock] + b;
    var a4, b4 := [p.entry] + a5, [q.entry] + b5;
    var a3, b3 := [p.manifest] + a4, [q.manifest] + b4;
    var a2, b2 := [p.version] + a3, [q.version] + b3;
    assert [p.name, p.version, p.manifest, p.entry, p.lock] + a == [p.name] + a2;
    assert [q.name, q.version, q.manifest, q.entry, q.lock] + b == [q.name] + b2;
    LexCons(p.name, q.name, a2, b2);
    LexCons(p.version, q.version, a3, b3);
    LexCons(p.manifest, q.manifest, a4, b4);
    LexCons(p.entry, q.entry, a5, b5);
    LexCons(p.lock, q.lock, a, b);
  }

  lemma {:induction false} LexOfTools(a: seq<Tool>, b: seq<Tool>, from: nat)
    requires |a| == |b| && from <= |a|
    ensures Lex(FlatTools(a[from..]), FlatTools(b[from..])) == ToolDifference(a, b, from)
    decreases |a| - from
  {
    hide CompareUtf16, CompareTool;
    if from < |a| {
      LexOfTools(a, b, from + 1);
      assert a[from..][1..] == a[from + 1..] && b[from..][1..] == b[from + 1..];
      LexFive(a[from], b[from], FlatTools(a[from + 1..]), FlatTools(b[from + 1..]));
    }
  }

  lemma {:induction false} LexOfLists(a: Claim, b: Claim)
    ensures
      Lex([Digits(|a.sources|)] + (FlatSources(a.sources) + ([Digits(|a.tools|)] + FlatTools(a.tools))),
          [Digits(|b.sources|)] + (FlatSources(b.sources) + ([Digits(|b.tools|)] + FlatTools(b.tools))))
      == OrElse(CompareSources(a.sources, b.sources), CompareTools(a.tools, b.tools))
  {
    hide CompareUtf16, Lex, Digits;
    var x, y := [Digits(|a.tools|)] + FlatTools(a.tools), [Digits(|b.tools|)] + FlatTools(b.tools);
    LexCons(Digits(|a.sources|), Digits(|b.sources|), FlatSources(a.sources) + x, FlatSources(b.sources) + y);
    LexCons(Digits(|a.tools|), Digits(|b.tools|), FlatTools(a.tools), FlatTools(b.tools));
    LengthsDecide(|a.sources|, |b.sources|);
    LengthsDecide(|a.tools|, |b.tools|);
    assert a.sources[0..] == a.sources && b.sources[0..] == b.sources;
    assert a.tools[0..] == a.tools && b.tools[0..] == b.tools;
    if |a.sources| == |b.sources| { LexOfSources(a.sources, b.sources, 0, x, y); }
    if |a.tools| == |b.tools| { LexOfTools(a.tools, b.tools, 0); }
  }

  /** Lengths compared as decimal texts differ exactly when the lengths do. */
  lemma {:induction false} LengthsDecide(m: nat, n: nat)
    ensures CompareUtf16(Digits(m), Digits(n)) == 0 <==> m == n
  {
    if Digits(m) == Digits(n) { DigitsAreInjective(m, n); }
  }

  /** The comparator is the lexicographic order of the flattened claims. */
  lemma {:induction false} CompareIsLex(a: Claim, b: Claim)
    ensures Compare(a, b) == Lex(Flat(a), Flat(b))
  {
    hide CompareUtf16, Lex, Digits, FlatSources, FlatTools, CompareSources, CompareTools;
    LexOfLists(a, b);
    var x := [Digits(|a.sources|)] + (FlatSources(a.sources) + ([Digits(|a.tools|)] + FlatTools(a.tools)));
    var y := [Digits(|b.sources|)] + (FlatSources(b.sources) + ([Digits(|b.tools|)] + FlatTools(b.tools)));
    var p := Tool(a.lock, a.entry, a.packageName, a.packageVersion, a.packageManifest);
    var q := Tool(b.lock, b.entry, b.packageName, b.packageVersion, b.packageManifest);
    var r := Tool(a.manager, Digits(a.lockVersion), a.rootName, a.rootVersion, a.rootManifest);
    var s := Tool(b.manager, Digits(b.lockVersion), b.rootName, b.rootVersion, b.rootManifest);
    var midA := [p.name, p.version, p.manifest, p.entry, p.lock] + x;
    var midB := [q.name, q.version, q.manifest, q.entry, q.lock] + y;
    LexFive(p, q, x, y);
    LexFive(r, s, midA, midB);
    assert Flat(a) == [r.name, r.version, r.manifest, r.entry, r.lock] + midA;
    assert Flat(b) == [s.name, s.version, s.manifest, s.entry, s.lock] + midB;
  }

  // ---- strict total order --------------------------------------------------------------------------

  lemma {:induction false} CompareUtf16Laws(a: Text, b: Text, c: Text)
    ensures CompareUtf16(a, b) == -CompareUtf16(b, a)
    ensures CompareUtf16(a, b) < 0 && CompareUtf16(b, c) < 0 ==> CompareUtf16(a, c) < 0
  {
    LessIrreflexive(a);
    LessTotal(a, b);
    if Less(a, b) { LessAsymmetric(a, b); }
    if Less(b, a) { LessAsymmetric(b, a); }
    if Less(a, b) && Less(b, c) {
      LessTransitive(a, b, c);
    }
  }

  lemma {:induction false} LexAntisymmetric(a: seq<Text>, b: seq<Text>)
    ensures Lex(a, b) == -Lex(b, a)
    ensures Lex(a, b) == 0 <==> a == b
  {
    hide CompareUtf16;
    if a != [] && b != [] {
      CompareUtf16Laws(a[0], b[0], a[0]);
      CompareIsZero(a[0], b[0]);
      LexAntisymmetric(a[1..], b[1..]);
      assert a == [a[0]] + a[1..] && b == [b[0]] + b[1..];
    }
  }

  lemma {:induction false} LexTransitive(a: seq<Text>, b: seq<Text>, c: seq<Text>)
    requires Lex(a, b) < 0 && Lex(b, c) < 0
    ensures Lex(a, c) < 0
  {
    hide CompareUtf16;
    if a != [] && b != [] && c != [] {
      CompareUtf16Laws(a[0], b[0], c[0]);
      CompareIsZero(a[0], b[0]);
      CompareIsZero(b[0], c[0]);
      if a[0] == b[0] && b[0] == c[0] {
        LexTransitive(a[1..], b[1..], c[1..]);
        CompareIsZero(a[0], c[0]);
      }
    }
  }

  /** Equal in the order means equal as a record. */
  lemma {:induction false} FlatIsInjective(a: Claim, b: Claim)
    requires Compare(a, b) == 0
    ensures a == b
  {
    hide CompareUtf16, CompareSources, CompareTools;
    CompareIsZero(a.manager, b.manager);
    LengthsDecide(a.lockVersion, b.lockVersion);
    CompareIsZero(a.rootName, b.rootName);
    CompareIsZero(a.rootVersion, b.rootVersion);
    CompareIsZero(a.rootManifest, b.rootManifest);
    CompareIsZero(a.lock, b.lock);
    CompareIsZero(a.entry, b.entry);
    CompareIsZero(a.packageName, b.packageName);
    CompareIsZero(a.packageVersion, b.packageVersion);
    CompareIsZero(a.packageManifest, b.packageManifest);
    EqualLists(a.sources, b.sources, a.tools, b.tools);
  }

  lemma {:induction false} EqualLists(a: seq<Source>, b: seq<Source>, x: seq<Tool>, y: seq<Tool>)
    ensures CompareSources(a, b) == 0 ==> a == b
    ensures CompareTools(x, y) == 0 ==> x == y
  {
    LengthsDecide(|a|, |b|);
    LengthsDecide(|x|, |y|);
    if CompareSources(a, b) == 0 { EqualSources(a, b, 0); }
    if CompareTools(x, y) == 0 { EqualTools(x, y, 0); }
  }

  lemma {:induction false} EqualSources(a: seq<Source>, b: seq<Source>, from: nat)
    requires |a| == |b| && from <= |a| && SourceDifference(a, b, from) == 0
    ensures a[from..] == b[from..]
    decreases |a| - from
  {
    hide CompareUtf16;
    if from < |a| {
      CompareIsZero(a[from].path, b[from].path);
      CompareIsZero(a[from].sha256, b[from].sha256);
      EqualSources(a, b, from + 1);
      assert a[from..] == [a[from]] + a[from + 1..] && b[from..] == [b[from]] + b[from + 1..];
    }
  }

  lemma {:induction false} EqualTools(a: seq<Tool>, b: seq<Tool>, from: nat)
    requires |a| == |b| && from <= |a| && ToolDifference(a, b, from) == 0
    ensures a[from..] == b[from..]
    decreases |a| - from
  {
    hide CompareUtf16;
    if from < |a| {
      CompareIsZero(a[from].name, b[from].name);
      CompareIsZero(a[from].version, b[from].version);
      CompareIsZero(a[from].manifest, b[from].manifest);
      CompareIsZero(a[from].entry, b[from].entry);
      CompareIsZero(a[from].lock, b[from].lock);
      EqualTools(a, b, from + 1);
      assert a[from..] == [a[from]] + a[from + 1..] && b[from..] == [b[from]] + b[from + 1..];
    }
  }

  /** The comparator is a strict total order whose zero is equality. */
  lemma {:induction false} CompareIsTotalOrder(a: Claim, b: Claim, c: Claim)
    ensures Compare(a, b) == 0 <==> a == b
    ensures Compare(a, b) == -Compare(b, a)
    ensures Compare(a, b) < 0 && Compare(b, c) < 0 ==> Compare(a, c) < 0
  {
    hide Compare, Flat, Lex;
    CompareIsLex(a, b);
    CompareIsLex(b, a);
    CompareIsLex(b, c);
    CompareIsLex(a, c);
    LexAntisymmetric(Flat(a), Flat(b));
    if Compare(a, b) == 0 { FlatIsInjective(a, b); }
    if Compare(a, b) < 0 && Compare(b, c) < 0 { LexTransitive(Flat(a), Flat(b), Flat(c)); }
  }

  // ---- sorting ---------------------------------------------------------------------------------------

  ghost predicate Sorted(s: seq<Claim>) {
    forall i, j :: 0 <= i < j < |s| ==> Compare(s[i], s[j]) <= 0
  }

  function Insert(x: Claim, s: seq<Claim>): seq<Claim> {
    if s == [] || Compare(x, s[0]) <= 0 then [x] + s else [s[0]] + Insert(x, s[1..])
  }

  function Sort(s: seq<Claim>): seq<Claim> {
    if s == [] then [] else Insert(s[0], Sort(s[1..]))
  }

  lemma {:induction false} AtMostTransitive(a: Claim, b: Claim, c: Claim)
    requires Compare(a, b) <= 0 && Compare(b, c) <= 0
    ensures Compare(a, c) <= 0
  {
    hide Compare;
    CompareIsTotalOrder(a, b, c);
    CompareIsTotalOrder(b, c, a);
    CompareIsTotalOrder(a, c, b);
  }

  lemma {:induction false} InsertAddsOne(x: Claim, s: seq<Claim>)
    ensures multiset(Insert(x, s)) == multiset{x} + multiset(s)
  {
    hide Compare;
    if s == [] || Compare(x, s[0]) <= 0 {
      assert [x] + s == Insert(x, s);
    } else {
      assert s == [s[0]] + s[1..];
      InsertAddsOne(x, s[1..]);
    }
  }

  ghost predicate AtMostAll(x: Claim, s: seq<Claim>) {
    forall j :: 0 <= j < |s| ==> Compare(x, s[j]) <= 0
  }

  lemma {:induction false} ConsSorted(x: Claim, s: seq<Claim>)
    requires Sorted(s) && AtMostAll(x, s)
    ensures Sorted([x] + s)
  {
    hide Compare;
  }

  lemma {:induction false} InsertSorts(x: Claim, s: seq<Claim>)
    requires Sorted(s)
    ensures Sorted(Insert(x, s))
  {
    hide Compare;
    if s != [] {
      CompareIsTotalOrder(x, s[0], x);
      if Compare(x, s[0]) <= 0 {
        forall j | 0 <= j < |s| ensures Compare(x, s[j]) <= 0 {
          if j > 0 { AtMostTransitive(x, s[0], s[j]); }
        }
        ConsSorted(x, s);
      } else {
        InsertSorts(x, s[1..]);
        FirstAtMostInserted(x, s);
        ConsSorted(s[0], Insert(x, s[1..]));
      }
    } else {
      ConsSorted(x, s);
    }
  }

  lemma {:induction false} FirstAtMostInserted(x: Claim, s: seq<Claim>)
    requires s != [] && Sorted(s) && Compare(s[0], x) <= 0
    ensures AtMostAll(s[0], Insert(x, s[1..]))
  {
    hide Compare, Insert;
    InsertAddsOne(x, s[1..]);
    var rest := Insert(x, s[1..]);
    forall j | 0 <= j < |rest| ensures Compare(s[0], rest[j]) <= 0 {
      assert rest[j] in multiset(rest);
      if rest[j] != x { assert rest[j] in s[1..]; }
    }
  }

  lemma {:induction false} SortSorts(s: seq<Claim>)
    ensures Sorted(Sort(s)) && multiset(Sort(s)) == multiset(s)
  {
    hide Compare;
    if s != [] {
      SortSorts(s[1..]);
      InsertSorts(s[0], Sort(s[1..]));
      InsertAddsOne(s[0], Sort(s[1..]));
      assert s == [s[0]] + s[1..];
    }
  }

  /** Two sorted lists of the same claims are the same list. */
  lemma {:induction false} SortedListsAreEqual(a: seq<Claim>, b: seq<Claim>)
    requires Sorted(a) && Sorted(b) && multiset(a) == multiset(b)
    ensures a == b
    decreases |a|
  {
    hide Compare;
    if a == [] {
      assert |multiset(b)| == 0;
    } else {
      assert |multiset(a)| == |multiset(b)|;
      FirstIsLeast(a, b);
      FirstIsLeast(b, a);
      CompareIsTotalOrder(a[0], b[0], a[0]);
      assert a == [a[0]] + a[1..] && b == [b[0]] + b[1..];
      assert multiset(a[1..]) == multiset(a) - multiset{a[0]};
      assert multiset(b[1..]) == multiset(b) - multiset{b[0]};
      SortedListsAreEqual(a[1..], b[1..]);
    }
  }

  lemma {:induction false} FirstIsLeast(a: seq<Claim>, b: seq<Claim>)
    requires Sorted(a) && multiset(a) == multiset(b) && a != [] && b != []
    ensures Compare(a[0], b[0]) <= 0
  {
    hide Compare;
    assert b[0] in multiset(b);
    assert b[0] in a;
    var j :| 0 <= j < |a| && a[j] == b[0];
    CompareIsTotalOrder(a[0], a[0], a[0]);
  }

  /** Whatever order the claims were found in, they sort to one list. */
  lemma {:induction false} PermutationsSortAlike(a: seq<Claim>, b: seq<Claim>)
    requires multiset(a) == multiset(b)
    ensures Sort(a) == Sort(b)
  {
    hide Compare, Sort;
    SortSorts(a);
    SortSorts(b);
    SortedListsAreEqual(Sort(a), Sort(b));
  }

  /** assertCanonicalClaims, which compares the canonical JSON of a list and of its sorted
      copy, accepts exactly the sorted lists. */
  lemma {:induction false} CanonicalMeansSorted(s: seq<Claim>)
    ensures Sort(s) == s <==> Sorted(s)
  {
    hide Compare, Sort;
    SortSorts(s);
    if Sorted(s) { SortedListsAreEqual(Sort(s), s); }
  }
}
