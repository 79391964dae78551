/** Matching portable claims to the prepared lock inputs: success is a one-to-one
    correspondence between the two, with equal identities and digests. */
module SourceClaims {
  import opened Wrappers
  import opened Text
  import opened ReceiptLock

  datatype Input =
    | ProjectInput(path: Text, sha256: Text)
    | PackageInput(name: Text, version: Text, path: Text, sha256: Text, manifest: Text)
    | TypeOnlyInput(name: Text, version: Text, manifest: Text, files: seq<Source>)

  const NUL: CodeUnit := 0
  const SOH: CodeUnit := 1
  const DOT_SLASH: Text := [46, 47]

  predicate IsPackage(c: Claim) { c.tools == [] }
  predicate IsTypeOnly(c: Claim) { |c.tools| == 2 }

  // ---- keys -----------------------------------------------------------------------------

  function Entry(s: Source): Text { s.path + [NUL] + s.sha256 }

  function Joined(files: seq<Source>): Text {
    if files == [] then []
    else if |files| == 1 then Entry(files[0])
    else Entry(files[0]) + [SOH] + Joined(files[1..])
  }

  function PackageKey(name: Text, version: Text, path: Text, sha256: Text, manifest: Text): Text {
    name + [NUL] + (version + [NUL] + (path + [NUL] + (sha256 + [NUL] + manifest)))
  }

  function TypeOnlyKey(name: Text, version: Text, manifest: Text, files: seq<Source>): Text {
    name + [NUL] + (version + [NUL] + (manifest + [NUL] + Joined(files)))
  }

  /** sourceGraphClaimKey without its constant first field, which names the kind. */
  function InputKey(x: Input): Text
    requires !x.ProjectInput?
  {
    match x
    case PackageInput(name, version, path, sha256, manifest) => PackageKey(name, version, path, sha256, manifest)
    case TypeOnlyInput(name, version, manifest, files) => TypeOnlyKey(name, version, manifest, files)
  }

  /** portableClaimKey, likewise; a claim without a source has none. */
  function ClaimKey(c: Claim): Text
    requires c.sources != []
  {
    if IsPackage(c)
    then PackageKey(c.packageName, c.packageVersion, c.sources[0].path, c.sources[0].sha256, c.packageManifest)
    else TypeOnlyKey(c.packageName, c.packageVersion, c.packageManifest, c.sources)
  }

  // ---- what a match is ------------------------------------------------------------------------

  /** `./` and what follows the first two characters of the path. */
  function Relative(path: Text): Text { DOT_SLASH + (if |path| >= 2 then path[2..] else []) }

  predicate Matches(x: Input, c: Claim, buildTools: seq<Tool>) {
    match x
    case ProjectInput(_, _) => false
    case PackageInput(name, version, path, sha256, manifest) =>
      && IsPackage(c) && c.sources == [Source(path, sha256)] && path == Relative(path)
      && c.packageName == name && c.packageVersion == version && c.packageManifest == manifest
    case TypeOnlyInput(name, version, manifest, files) =>
      && IsTypeOnly(c) && c.tools == buildTools && c.sources == files && files != []
      && c.packageName == name && c.packageVersion == version && c.packageManifest == manifest
  }

  lemma {:induction false} MatchSharesKey(x: Input, c: Claim, buildTools: seq<Tool>)
    requires Matches(x, c, buildTools)
    ensures !x.ProjectInput? && c.sources != [] && ClaimKey(c) == InputKey(x)
    ensures IsPackage(c) <==> x.PackageInput?
    ensures SlotOf(c) == InputSlot(x)
  {
  }

  /** Every claim is a package claim or a type-only claim and names a source. */
  predicate Supported(claims: seq<Claim>) {
    forall i :: 0 <= i < |claims| ==> (IsPackage(claims[i]) || IsTypeOnly(claims[i])) && claims[i].sources != []
  }

  /** Where a claim is filed: in the map of its kind, under its key. */
  datatype Slot = Slot(package: bool, key: Text)

  function SlotOf(c: Claim): Slot
    requires c.sources != []
  {
    Slot(IsPackage(c), ClaimKey(c))
  }

  function InputSlot(x: Input): Slot
    requires !x.ProjectInput?
  {
    Slot(x.PackageInput?, InputKey(x))
  }

  predicate NoDuplicates(claims: seq<Claim>)
    requires Supported(claims)
  {
    forall i, j :: 0 <= i < j < |claims| ==> SlotOf(claims[i]) != SlotOf(claims[j])
  }

  /** `chosen` reorders the claims so that each matches the input at its place. */
  predicate Pairs(inputs: seq<Input>, claims: seq<Claim>, buildTools: seq<Tool>, chosen: seq<Claim>) {
    && |chosen| == |inputs| && multiset(chosen) == multiset(claims)
    && forall i :: 0 <= i < |inputs| ==> Matches(inputs[i], chosen[i], buildTools)
  }

  ghost predicate Corresponds(inputs: seq<Input>, claims: seq<Claim>, buildTools: seq<Tool>) {
    exists chosen :: Pairs(inputs, claims, buildTools, chosen)
  }

  function CountPackages(xs: seq<Input>): nat {
    if xs == [] then 0 else CountPackages(xs[..|xs| - 1]) + if xs[|xs| - 1].PackageInput? then 1 else 0
  }

  function CountTypeOnly(xs: seq<Input>): nat {
    if xs == [] then 0 else CountTypeOnly(xs[..|xs| - 1]) + if xs[|xs| - 1].TypeOnlyInput? then 1 else 0
  }

  // ---- the two maps ------------------------------------------------------------------------------

  /** The map of package claims and the map of type-only claims, told apart by the slot. */
  type Index = map<Slot, Claim>

  predicate Filed(ix: Index, c: Claim) {
    c.sources != [] && SlotOf(c) in ix && ix[SlotOf(c)] == c
  }

  /** The maps file exactly the claims in `rest`, each once and in its own slot. */
  ghost predicate Files(ix: Index, rest: multiset<Claim>) {
    && (forall c :: c in rest <==> Filed(ix, c)) && (forall c :: rest[c] <= 1)
    && (forall k :: k in ix ==> Filed(ix, ix[k]) && SlotOf(ix[k]) == k)
  }

  lemma {:induction false} FileOneMore(ix: Index, rest: multiset<Claim>, c: Claim)
    requires Files(ix, rest) && c.sources != [] && SlotOf(c) !in ix
    ensures Files(ix[SlotOf(c) := c], rest + multiset{c})
  {
    hide ClaimKey, IsPackage;
    var next := ix[SlotOf(c) := c];
    forall d ensures d in rest + multiset{c} <==> Filed(next, d) {
      assert d in rest <==> Filed(ix, d);
    }
  }

  lemma {:induction false} DropOne(ix: Index, rest: multiset<Claim>, slot: Slot)
    requires Files(ix, rest) && slot in ix
    ensures ix[slot] in rest && ix[slot].sources != [] && SlotOf(ix[slot]) == slot
    ensures Files(ix - {slot}, rest - multiset{ix[slot]})
  {
    hide ClaimKey, IsPackage;
    var c := ix[slot];
    forall d ensures d in rest - multiset{c} <==> Filed(ix - {slot}, d) {
      assert d in rest <==> Filed(ix, d);
    }
  }

  lemma {:induction false} NothingFiled(ix: Index, rest: multiset<Claim>)
    requires Files(ix, rest)
    ensures ix == map[] <==> rest == multiset{}
  {
    hide ClaimKey, IsPackage;
    assert forall k :: k in ix ==> ix[k] in rest;
  }

  /** A claim that is filed is the one found in its slot. */
  lemma {:induction false} FiledIsFound(ix: Index, rest: multiset<Claim>, c: Claim)
    requires Files(ix, rest) && c in rest
    ensures c.sources != [] && SlotOf(c) in ix && ix[SlotOf(c)] == c
  {
    hide ClaimKey, IsPackage;
    assert Filed(ix, c);
  }

  // ---- filing the claims ------------------------------------------------------------------------------

  /** The first loop: files every claim, unless one is unsupported or a slot is taken twice. */
  method FileClaims(claims: seq<Claim>) returns (r: Option<Index>)
    ensures r.Some? <==> Supported(claims) && NoDuplicates(claims)
    ensures r.Some? ==> Files(r.value, multiset(claims))
  {
    hide ClaimKey, IsPackage, IsTypeOnly;
    var ix: Index := map[];
    for i := 0 to |claims|
      invariant Supported(claims[..i]) && NoDuplicates(claims[..i]) && Files(ix, multiset(claims[..i]))
    {
      var c := claims[i];
      assert claims[..i + 1] == claims[..i] + [c];
      if !(IsPackage(c) || IsTypeOnly(c)) || c.sources == [] {
        assert !Supported(claims);
        return None;
      }
      if SlotOf(c) in ix {
        SlotTaken(claims, i, ix);
        return None;
      }
      SlotFree(claims, i, ix);
      FileOneMore(ix, multiset(claims[..i]), c);
      ix := ix[SlotOf(c) := c];
    }
    assert claims[..|claims|] == claims;
    return Some(ix);
  }

  lemma {:induction false} SlotTaken(claims: seq<Claim>, i: nat, ix: Index)
    requires i < |claims| && Supported(claims[..i]) && Files(ix, multiset(claims[..i]))
    requires claims[i].sources != [] && SlotOf(claims[i]) in ix
    ensures !(Supported(claims) && NoDuplicates(claims))
  {
    hide ClaimKey, IsPackage, IsTypeOnly;
    var c := ix[SlotOf(claims[i])];
    assert Filed(ix, c);
    assert c in claims[..i];
    var j :| 0 <= j < i && claims[..i][j] == c;
    assert claims[j] == c;
  }

  lemma {:induction false} SlotFree(claims: seq<Claim>, i: nat, ix: Index)
    requires i < |claims| && Supported(claims[..i]) && NoDuplicates(claims[..i]) && Files(ix, multiset(claims[..i]))
    requires IsPackage(claims[i]) || IsTypeOnly(claims[i])
    requires claims[i].sources != [] && SlotOf(claims[i]) !in ix
    ensures Supported(claims[..i + 1]) && NoDuplicates(claims[..i + 1])
  {
    hide ClaimKey, IsPackage, IsTypeOnly;
    var now := claims[..i + 1];
    assert now == claims[..i] + [claims[i]];
    forall j | 0 <= j < i ensures SlotOf(claims[..i][j]) != SlotOf(claims[i]) {
      assert claims[..i][j] in multiset(claims[..i]);
      assert Filed(ix, claims[..i][j]);
    }
  }

  // ---- matching the inputs -------------------------------------------------------------------------------

  /** The checks on the claim found for an input. */
  predicate Checks(x: Input, c: Claim, buildTools: seq<Tool>)
    requires !x.ProjectInput?
  {
    match x
    case PackageInput(name, version, path, sha256, manifest) =>
      && |c.sources| == 1 && c.sources[0].path == Relative(path) && c.sources[0].sha256 == sha256
      && c.packageName == name && c.packageVersion == version && c.packageManifest == manifest
      && |c.tools| == 0
    case TypeOnlyInput(name, version, manifest, files) =>
      && |c.tools| == 2 && c.tools == buildTools && |c.sources| == |files|
      && (forall i :: 0 <= i < |files| ==> c.sources[i].path == files[i].path && c.sources[i].sha256 == files[i].sha256)
      && c.packageName == name && c.packageVersion == version && c.packageManifest == manifest
  }

  /** Found in its slot and passing the checks is a match; the path of a package claim is the
      path of its input because both are in the key. */
  lemma {:induction false} FoundAndChecked(x: Input, c: Claim, buildTools: seq<Tool>)
    requires !x.ProjectInput? && c.sources != [] && SlotOf(c) == InputSlot(x)
    ensures Checks(x, c, buildTools) <==> Matches(x, c, buildTools)
  {
    match x {
      case PackageInput(name, version, path, sha256, manifest) =>
        if Checks(x, c, buildTools) {
          assert c.sources == [c.sources[0]];
          SameKeySamePath(name, version, c.sources[0].path, path, sha256, manifest);
        }
      case TypeOnlyInput(name, version, manifest, files) =>
        if Checks(x, c, buildTools) { assert c.sources == files; }
    }
  }

  /** Two package keys that differ at most in the path have the same path. */
  lemma {:induction false} SameKeySamePath(name: Text, version: Text, p: Text, q: Text, sha256: Text, manifest: Text)
    requires PackageKey(name, version, p, sha256, manifest) == PackageKey(name, version, q, sha256, manifest)
    ensures p == q
  {
    var tail := sha256 + [NUL] + manifest;
    var a, b := p + [NUL] + tail, q + [NUL] + tail;
    var v, w := version + [NUL] + a, version + [NUL] + b;
    assert (name + [NUL] + v)[|name| + 1..] == v && (name + [NUL] + w)[|name| + 1..] == w;
    assert v[|version| + 1..] == a && w[|version| + 1..] == b;
    assert |a| == |b| && |p| == |q|;
    assert a[..|p|] == p && b[..|p|] == q;
  }

  ghost predicate Matched(inputs: seq<Input>, buildTools: seq<Tool>, chosen: seq<Claim>, n: nat) {
    |chosen| == n <= |inputs| && forall i :: 0 <= i < n ==> Matches(inputs[i], chosen[i], buildTools)
  }

  /** assertSourceClaims: succeeds exactly when the claims are supported and distinct, the
      inputs and claims correspond one to one, and the source graph has as many package and
      type-only descriptors as there are inputs of each kind. */
  method AssertSourceClaims(sourceGraph: seq<Input>, claims: seq<Claim>, inputs: seq<Input>, buildTools: seq<Tool>)
    returns (ok: bool)
    requires forall i :: 0 <= i < |inputs| ==> !inputs[i].ProjectInput?
    ensures ok <==>
      && Supported(claims) && NoDuplicates(claims) && Corresponds(inputs, claims, buildTools)
      && CountPackages(sourceGraph) == CountPackages(inputs) && CountTypeOnly(sourceGraph) == CountTypeOnly(inputs)
  {
    hide ClaimKey, InputKey, IsPackage, IsTypeOnly, Files, Matches, Checks, SlotOf, InputSlot, Supported,
         NoDuplicates, Corresponds;
    var filed := FileClaims(claims);
    if filed.None? { return false; }
    var ix := filed.value;
    ghost var rest, chosen := multiset(claims), [];
    var packageCount, typeOnlyCount := 0, 0;
    for i := 0 to |inputs|
      invariant Files(ix, rest) && rest + multiset(chosen) == multiset(claims)
      invariant Matched(inputs, buildTools, chosen, i)
      invariant packageCount == CountPackages(inputs[..i]) && typeOnlyCount == CountTypeOnly(inputs[..i])
    {
      var x := inputs[i];
      assert inputs[..i + 1][..i] == inputs[..i];
      if x.PackageInput? { packageCount := packageCount + 1; }
      if x.TypeOnlyInput? { typeOnlyCount := typeOnlyCount + 1; }
      var slot := InputSlot(x);
      if slot !in ix {
        NoClaimForInput(inputs, claims, buildTools, chosen, ix, rest);
        return false;
      }
      var c := ix[slot];
      DropOne(ix, rest, slot);
      FoundAndChecked(x, c, buildTools);
      assert c in rest + multiset(chosen) && c in claims;
      if !Checks(x, c, buildTools) {
        WrongClaimForInput(inputs, claims, buildTools, i, c);
        return false;
      }
      ix, rest, chosen := ix - {slot}, rest - multiset{c}, chosen + [c];
    }
    assert inputs[..|inputs|] == inputs;
    NothingFiled(ix, rest);
    if ix != map[] {
      LeftOver(inputs, claims, buildTools, chosen, rest);
      return false;
    }
    ChosenCorresponds(inputs, claims, buildTools, chosen);
    return CountPackages(sourceGraph) == packageCount && CountTypeOnly(sourceGraph) == typeOnlyCount;
  }

  lemma {:induction false} ChosenCorresponds(inputs: seq<Input>, claims: seq<Claim>, buildTools: seq<Tool>,
                                             chosen: seq<Claim>)
    requires Matched(inputs, buildTools, chosen, |inputs|) && multiset(chosen) == multiset(claims)
    ensures Corresponds(inputs, claims, buildTools)
  {
    hide Matches;
    assert Pairs(inputs, claims, buildTools, chosen);
  }

  lemma {:induction false} LeftOver(inputs: seq<Input>, claims: seq<Claim>, buildTools: seq<Tool>, chosen: seq<Claim>,
                                    rest: multiset<Claim>)
    requires Matched(inputs, buildTools, chosen, |inputs|) && rest + multiset(chosen) == multiset(claims)
    requires rest != multiset{}
    ensures !Corresponds(inputs, claims, buildTools)
  {
    hide Matches;
    assert |multiset(chosen)| == |inputs| && |rest| > 0;
    forall other ensures !Pairs(inputs, claims, buildTools, other) {
      PairsCount(inputs, claims, buildTools, other);
    }
  }

  lemma {:induction false} PairsCount(inputs: seq<Input>, claims: seq<Claim>, buildTools: seq<Tool>, other: seq<Claim>)
    ensures Pairs(inputs, claims, buildTools, other) ==> |multiset(claims)| == |inputs|
  {
    assert |multiset(other)| == |other|;
  }

  lemma {:induction false} OneClaimPerSlot(claims: seq<Claim>, a: Claim, b: Claim)
    requires Supported(claims) && NoDuplicates(claims) && a in claims && b in claims
    ensures a.sources != [] && b.sources != [] && (SlotOf(a) == SlotOf(b) ==> a == b)
  {
    hide ClaimKey, IsPackage, IsTypeOnly, SlotOf;
    var i :| 0 <= i < |claims| && claims[i] == a;
    var j :| 0 <= j < |claims| && claims[j] == b;
  }

  lemma {:induction false} TwiceInList(s: seq<Claim>, i: nat, j: nat)
    requires i < j < |s| && s[i] == s[j]
    ensures multiset(s)[s[i]] >= 2
  {
    assert s == s[..i] + [s[i]] + s[i + 1..j] + [s[j]] + s[j + 1..];
    assert multiset(s) ==
      multiset(s[..i]) + multiset{s[i]} + multiset(s[i + 1..j]) + multiset{s[j]} + multiset(s[j + 1..]);
  }

  lemma {:induction false} OnceInClaims(claims: seq<Claim>, c: Claim)
    requires Supported(claims) && NoDuplicates(claims)
    ensures multiset(claims)[c] <= 1
  {
    hide ClaimKey, IsPackage, IsTypeOnly, SlotOf;
    if claims != [] {
      var last := |claims| - 1;
      assert claims == claims[..last] + [claims[last]];
      OnceInClaims(claims[..last], c);
      if c == claims[last] {
        forall i | 0 <= i < last ensures claims[..last][i] != c { assert SlotOf(claims[i]) != SlotOf(claims[last]); }
      }
    }
  }

  /** The claim found for an input is the only one it could match. */
  lemma {:induction false} WrongClaimForInput(inputs: seq<Input>, claims: seq<Claim>, buildTools: seq<Tool>, i: nat,
                                              c: Claim)
    requires Supported(claims) && NoDuplicates(claims) && i < |inputs| && !inputs[i].ProjectInput?
    requires c in claims && c.sources != [] && SlotOf(c) == InputSlot(inputs[i]) && !Matches(inputs[i], c, buildTools)
    ensures !Corresponds(inputs, claims, buildTools)
  {
    hide Matches, SlotOf, InputSlot, NoDuplicates;
    if Corresponds(inputs, claims, buildTools) {
      var other :| Pairs(inputs, claims, buildTools, other);
      assert other[i] in multiset(other);
      assert other[i] in claims;
      MatchSharesKey(inputs[i], other[i], buildTools);
      OneClaimPerSlot(claims, other[i], c);
    }
  }

  /** An input whose slot is empty has no claim left to match: an earlier input would have had
      to match the same one. */
  lemma {:induction false} NoClaimForInput(inputs: seq<Input>, claims: seq<Claim>, buildTools: seq<Tool>,
                                           chosen: seq<Claim>, ix: Index, rest: multiset<Claim>)
    requires Supported(claims) && NoDuplicates(claims) && |chosen| < |inputs| && !inputs[|chosen|].ProjectInput?
    requires Files(ix, rest) && rest + multiset(chosen) == multiset(claims)
    requires Matched(inputs, buildTools, chosen, |chosen|) && InputSlot(inputs[|chosen|]) !in ix
    ensures !Corresponds(inputs, claims, buildTools)
  {
    hide Matches, SlotOf, InputSlot, NoDuplicates, Files;
    var i := |chosen|;
    if Corresponds(inputs, claims, buildTools) {
      var other :| Pairs(inputs, claims, buildTools, other);
      var c := other[i];
      assert c in multiset(other);
      assert c in multiset(claims) && c in claims;
      MatchSharesKey(inputs[i], c, buildTools);
      if c in rest { FiledIsFound(ix, rest, c); }
      assert c in chosen;
      var j :| 0 <= j < i && chosen[j] == c;
      MatchSharesKey(inputs[j], c, buildTools);
      MatchSharesKey(inputs[j], other[j], buildTools);
      assert other[j] in multiset(other);
      OneClaimPerSlot(claims, other[j], c);
      TwiceInList(other, j, i);
      OnceInClaims(claims, c);
    }
  }

  // ---- the keys are unambiguous -------------------------------------------------------------------------

  predicate Free(t: Text, separator: CodeUnit) { separator !in t }

  /** Text up to the first separator, and what follows it, are determined. */
  lemma {:induction false} SplitIsUnique(a: Text, b: Text, x: Text, y: Text, separator: CodeUnit)
    requires Free(a, separator) && Free(b, separator)
    requires a + [separator] + x == b + [separator] + y
    ensures a == b && x == y
  {
    BeforeOf(a, x, separator);
    BeforeOf(b, y, separator);
    var s := a + [separator] + x;
    assert x == s[|a| + 1..] && y == s[|a| + 1..];
  }

  /** The text before the first separator. */
  function Before(t: Text, separator: CodeUnit): Text {
    if t == [] || t[0] == separator then [] else [t[0]] + Before(t[1..], separator)
  }

  lemma {:induction false} BeforeOf(a: Text, x: Text, separator: CodeUnit)
    requires Free(a, separator)
    ensures Before(a + [separator] + x, separator) == a
  {
    var s := a + [separator] + x;
    if a == [] {
      assert s[0] == separator;
    } else {
      assert s[0] == a[0] && a[0] in a;
      assert s[1..] == a[1..] + [separator] + x;
      BeforeOf(a[1..], x, separator);
    }
  }

  /** Two package keys without NUL in their fields agree only on equal fields. */
  lemma {:induction false} PackageKeysAreInjective(n: seq<Text>, m: seq<Text>)
    requires |n| == 5 && |m| == 5 && forall i :: 0 <= i < 4 ==> Free(n[i], NUL) && Free(m[i], NUL)
    requires PackageKey(n[0], n[1], n[2], n[3], n[4]) == PackageKey(m[0], m[1], m[2], m[3], m[4])
    ensures n == m
  {
    var n3, m3 := n[3] + [NUL] + n[4], m[3] + [NUL] + m[4];
    var n2, m2 := n[2] + [NUL] + n3, m[2] + [NUL] + m3;
    SplitIsUnique(n[0], m[0], n[1] + [NUL] + n2, m[1] + [NUL] + m2, NUL);
    SplitIsUnique(n[1], m[1], n2, m2, NUL);
    SplitIsUnique(n[2], m[2], n3, m3, NUL);
    SplitIsUnique(n[3], m[3], n[4], m[4], NUL);
  }

  predicate CleanFile(s: Source) {
    Free(s.path, NUL) && Free(s.path, SOH) && Free(s.sha256, NUL) && Free(s.sha256, SOH)
  }

  lemma {:induction false} EntryIsInjective(a: Source, b: Source)
    requires CleanFile(a) && CleanFile(b)
    ensures Free(Entry(a), SOH) && (Entry(a) == Entry(b) ==> a == b)
  {
    if Entry(a) == Entry(b) { SplitIsUnique(a.path, b.path, a.sha256, b.sha256, NUL); }
  }

  /** The joined file list determines the files. */
  lemma {:induction false} JoinedIsInjective(a: seq<Source>, b: seq<Source>)
    requires forall i :: 0 <= i < |a| ==> CleanFile(a[i])
    requires forall i :: 0 <= i < |b| ==> CleanFile(b[i])
    requires Joined(a) == Joined(b)
    ensures a == b
    decreases |a|
  {
    hide Entry, CleanFile;
    if a != [] { EntryHasNul(a[0]); }
    if b != [] { EntryHasNul(b[0]); }
    if a != [] && b != [] {
      EntryIsInjective(a[0], b[0]);
      EntryIsInjective(b[0], a[0]);
      if |a| == 1 && |b| > 1 { SeparatorMissing(Entry(a[0]), Entry(b[0]), Joined(b[1..])); }
      if |b| == 1 && |a| > 1 { SeparatorMissing(Entry(b[0]), Entry(a[0]), Joined(a[1..])); }
      if |a| > 1 && |b| > 1 {
        SplitIsUnique(Entry(a[0]), Entry(b[0]), Joined(a[1..]), Joined(b[1..]), SOH);
        JoinedIsInjective(a[1..], b[1..]);
        assert a == [a[0]] + a[1..] && b == [b[0]] + b[1..];
      }
    }
  }

  lemma {:induction false} EntryHasNul(s: Source)
    ensures Entry(s) != [] && (forall rest :: Entry(s) + [SOH] + rest != [])
  {
  }

  lemma {:induction false} SeparatorMissing(a: Text, b: Text, rest: Text)
    requires Free(a, SOH)
    ensures a != b + [SOH] + rest
  {
    assert (b + [SOH] + rest)[|b|] == SOH;
    assert |b| < |a| ==> a[|b|] in a;
  }

  /** Two type-only keys without separators in their fields agree only on equal fields. */
  lemma {:induction false} TypeOnlyKeysAreInjective(n: seq<Text>, m: seq<Text>, a: seq<Source>, b: seq<Source>)
    requires |n| == 3 && |m| == 3 && forall i :: 0 <= i < 3 ==> Free(n[i], NUL) && Free(m[i], NUL)
    requires forall i :: 0 <= i < |a| ==> CleanFile(a[i])
    requires forall i :: 0 <= i < |b| ==> CleanFile(b[i])
    requires TypeOnlyKey(n[0], n[1], n[2], a) == TypeOnlyKey(m[0], m[1], m[2], b)
    ensures n == m && a == b
  {
    hide CleanFile;
    var n2, m2 := n[2] + [NUL] + Joined(a), m[2] + [NUL] + Joined(b);
    SplitIsUnique(n[0], m[0], n[1] + [NUL] + n2, m[1] + [NUL] + m2, NUL);
    SplitIsUnique(n[1], m[1], n2, m2, NUL);
    SplitIsUnique(n[2], m[2], Joined(a), Joined(b), NUL);
    JoinedIsInjective(a, b);
  }

  /** A package input matches only under a path that starts with a dot and a slash. */
  lemma {:induction false} RelativeExactly(path: Text)
    ensures path == Relative(path) <==> Ascii("./") <= path
  {
    assert Ascii("./") == DOT_SLASH;
    if DOT_SLASH <= path { assert path == path[..2] + path[2..]; }
  }
}
