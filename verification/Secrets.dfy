/** The shape of a secret: the four alternatives of the pattern that the compose check puts on
    every string, at a position of the text. */
module Secrets {
  import opened Text
  import opened Formats

  // Bearer, password, token, sk-
  const BEARER: Text := [66, 101, 97, 114, 101, 114]
  const PASSWORD: Text := [112, 97, 115, 115, 119, 111, 114, 100]
  const TOKEN: Text := [116, 111, 107, 101, 110]
  const SK: Text := [115, 107, 45]
  // "-----BEGIN " and "PRIVATE KEY-----"
  const BEGIN: Text := [45, 45, 45, 45, 45, 66, 69, 71, 73, 78, 32]
  const PRIVATE_KEY: Text := [80, 82, 73, 86, 65, 84, 69, 32, 75, 69, 89, 45, 45, 45, 45, 45]
  const EQUALS: CodeUnit := 61

  predicate Letter(c: CodeUnit) { 65 <= c <= 90 || 97 <= c <= 122 }

  predicate WordUnit(c: CodeUnit) { Letter(c) || 48 <= c <= 57 || c == 95 }

  /** White space of ECMA-262, section 12.2, and line terminators. */
  predicate Space(c: CodeUnit) {
    || 9 <= c <= 13 || c == 32 || c == 0xA0 || c == 0x1680 || 0x2000 <= c <= 0x200A || c == 0x2028 || c == 0x2029
    || c == 0x202F || c == 0x205F || c == 0x3000 || c == 0xFEFF
  }

  predicate WordAt(t: Text, i: int) { 0 <= i < |t| && WordUnit(t[i]) }

  predicate BoundaryAt(t: Text, i: nat) { WordAt(t, i - 1) != WordAt(t, i) }

  predicate StartsAt(t: Text, i: nat, w: Text) { i + |w| <= |t| && t[i..i + |w|] == w }

  predicate SpacesBetween(t: Text, i: nat, j: nat) { j <= |t| && forall k :: i <= k < j ==> Space(t[k]) }

  predicate BearerAt(t: Text, i: nat) {
    && BoundaryAt(t, i) && StartsAt(t, i, BEARER)
    && exists j :: i + 6 < j < |t| && SpacesBetween(t, i + 6, j) && !Space(t[j])
  }

  predicate AssignedAt(t: Text, i: nat, w: Text) {
    && BoundaryAt(t, i) && StartsAt(t, i, w)
    && exists j :: i + |w| <= j < |t| && SpacesBetween(t, i + |w|, j) && t[j] == EQUALS
  }

  predicate UpperOrBlank(t: Text, i: nat, j: nat) {
    j <= |t| && forall k :: i <= k < j ==> 65 <= t[k] <= 90 || t[k] == 32
  }

  predicate PrivateKeyAt(t: Text, i: nat) {
    StartsAt(t, i, BEGIN) && exists j :: i + 11 < j <= |t| && UpperOrBlank(t, i + 11, j) && StartsAt(t, j, PRIVATE_KEY)
  }

  predicate ApiKeyAt(t: Text, i: nat) {
    && BoundaryAt(t, i) && StartsAt(t, i, SK) && i + 19 <= |t|
    && forall k :: i + 3 <= k < i + 19 ==> WordUnit(t[k]) || t[k] == DASH
  }

  predicate SecretAt(t: Text, i: nat) {
    BearerAt(t, i) || AssignedAt(t, i, PASSWORD) || AssignedAt(t, i, TOKEN) || PrivateKeyAt(t, i) || ApiKeyAt(t, i)
  }

  predicate SecretShaped(t: Text) { exists i :: 0 <= i < |t| && SecretAt(t, i) }

  // ---- what cannot be a secret ------------------------------------------------------------------

  /** No space and no equals sign; and without a dash, an s or a k. */
  predicate Plain(t: Text) {
    && (forall k :: 0 <= k < |t| ==> !Space(t[k]) && t[k] != EQUALS)
    && (Lacks(t, DASH) || Lacks(t, SK[0]) || Lacks(t, SK[1]))
  }

  predicate Lacks(t: Text, c: CodeUnit) { forall k :: 0 <= k < |t| ==> t[k] != c }

  lemma {:induction false} PlainIsNoSecret(t: Text)
    requires Plain(t)
    ensures !SecretShaped(t)
  {
    forall i | 0 <= i < |t| ensures !SecretAt(t, i) {
      StartUnits(t, i, BEGIN);
      StartUnits(t, i, SK);
      if BearerAt(t, i) { BearerHasSpace(t, i); }
    }
  }

  lemma {:induction false} BearerHasSpace(t: Text, i: nat)
    requires BearerAt(t, i)
    ensures exists k :: 0 <= k < |t| && Space(t[k])
  {
    var j :| i + 6 < j < |t| && SpacesBetween(t, i + 6, j) && !Space(t[j]);
    assert Space(t[i + 6]);
  }

  lemma {:induction false} StartUnits(t: Text, i: nat, w: Text)
    requires w != []
    ensures StartsAt(t, i, w) ==> i + |w| <= |t| && t[i] == w[0] && t[i + |w| - 1] == w[|w| - 1]
    ensures StartsAt(t, i, w) ==> forall k :: 0 <= k < |w| ==> t[i + k] == w[k]
  {
    if StartsAt(t, i, w) {
      forall k | 0 <= k < |w| ensures t[i + k] == w[k] { assert t[i..i + |w|][k] == t[i + k]; }
    }
  }

  // ---- a secret inside a longer text --------------------------------------------------------------

  lemma {:induction false} EmbeddedStart(p: Text, t: Text, q: Text, i: nat, w: Text)
    requires StartsAt(t, i, w)
    ensures StartsAt(p + t + q, |p| + i, w)
  {
    var s := p + t + q;
    assert s[|p| + i..|p| + i + |w|] == t[i..i + |w|];
  }

  lemma {:induction false} EmbeddedUnits(p: Text, t: Text, q: Text)
    ensures forall k :: 0 <= k < |t| ==> (p + t + q)[|p| + k] == t[k]
    ensures forall i :: 0 < i < |t| ==> (BoundaryAt(p + t + q, |p| + i) <==> BoundaryAt(t, i))
  {
  }

  lemma {:induction false} EmbeddedSpaces(p: Text, t: Text, q: Text, i: nat, j: nat)
    requires SpacesBetween(t, i, j)
    ensures SpacesBetween(p + t + q, |p| + i, |p| + j)
  {
    var s := p + t + q;
    forall k | |p| + i <= k < |p| + j ensures Space(s[k]) { assert s[k] == t[k - |p|]; }
  }

  lemma {:induction false} EmbeddedAssignment(p: Text, t: Text, q: Text, i: nat, w: Text)
    requires 0 < i < |t| && AssignedAt(t, i, w)
    ensures AssignedAt(p + t + q, |p| + i, w)
  {
    EmbeddedUnits(p, t, q);
    EmbeddedStart(p, t, q, i, w);
    var j :| i + |w| <= j < |t| && SpacesBetween(t, i + |w|, j) && t[j] == EQUALS;
    EmbeddedSpaces(p, t, q, i + |w|, j);
    assert (p + t + q)[|p| + j] == t[j];
  }

  lemma {:induction false} EmbeddedBearer(p: Text, t: Text, q: Text, i: nat)
    requires 0 < i < |t| && BearerAt(t, i)
    ensures BearerAt(p + t + q, |p| + i)
  {
    EmbeddedUnits(p, t, q);
    EmbeddedStart(p, t, q, i, BEARER);
    var j :| i + 6 < j < |t| && SpacesBetween(t, i + 6, j) && !Space(t[j]);
    EmbeddedSpaces(p, t, q, i + 6, j);
    assert (p + t + q)[|p| + j] == t[j];
  }

  lemma {:induction false} EmbeddedKeys(p: Text, t: Text, q: Text, i: nat)
    requires 0 < i < |t|
    ensures PrivateKeyAt(t, i) ==> PrivateKeyAt(p + t + q, |p| + i)
    ensures ApiKeyAt(t, i) ==> ApiKeyAt(p + t + q, |p| + i)
  {
    var s := p + t + q;
    EmbeddedUnits(p, t, q);
    if PrivateKeyAt(t, i) {
      EmbeddedStart(p, t, q, i, BEGIN);
      var j :| i + 11 < j <= |t| && UpperOrBlank(t, i + 11, j) && StartsAt(t, j, PRIVATE_KEY);
      EmbeddedStart(p, t, q, j, PRIVATE_KEY);
      forall k | |p| + i + 11 <= k < |p| + j ensures 65 <= s[k] <= 90 || s[k] == 32 { assert s[k] == t[k - |p|]; }
      assert UpperOrBlank(s, |p| + i + 11, |p| + j);
    }
    if ApiKeyAt(t, i) {
      EmbeddedStart(p, t, q, i, SK);
      forall k | |p| + i + 3 <= k < |p| + i + 19 ensures WordUnit(s[k]) || s[k] == DASH { assert s[k] == t[k - |p|]; }
    }
  }

  /** A secret that does not start its text is one in every longer text too. */
  lemma {:induction false} EmbeddedSecret(p: Text, t: Text, q: Text, i: nat)
    requires 0 < i < |t| && SecretAt(t, i)
    ensures SecretShaped(p + t + q)
  {
    hide BearerAt, AssignedAt, PrivateKeyAt, ApiKeyAt;
    if BearerAt(t, i) { EmbeddedBearer(p, t, q, i); }
    if AssignedAt(t, i, PASSWORD) { EmbeddedAssignment(p, t, q, i, PASSWORD); }
    if AssignedAt(t, i, TOKEN) { EmbeddedAssignment(p, t, q, i, TOKEN); }
    EmbeddedKeys(p, t, q, i);
    assert SecretAt(p + t + q, |p| + i);
  }

  // ---- the words of the pattern ---------------------------------------------------------------------

  lemma {:induction false} PatternSpelled()
    ensures BEARER == Ascii("Bearer") && PASSWORD == Ascii("password") && TOKEN == Ascii("token")
    ensures SK == Ascii("sk-") && BEGIN == Ascii("-----BEGIN ") && PRIVATE_KEY == Ascii("PRIVATE KEY-----")
  {
  }

  /** A key is one from sixteen units on, and one unit less is none. */
  lemma {:induction false} SixteenUnits(t: Text)
    requires |t| >= 3 && t[..3] == Ascii("sk-") && forall k :: 3 <= k < |t| ==> Letter(t[k])
    ensures SecretShaped(t) <==> |t| >= 19
  {
    hide Space;
    PatternSpelled();
    assert t[0] == 115 && t[1] == 107 && t[2] == DASH;
    if |t| >= 19 {
      assert t[0..3] == SK && BoundaryAt(t, 0) && ApiKeyAt(t, 0);
      assert SecretAt(t, 0);
    } else {
      forall i | 0 <= i < |t| ensures !SecretAt(t, i) {
        LettersAndOneDash(t, i);
      }
    }
  }

  lemma {:induction false} LettersAndOneDash(t: Text, i: nat)
    requires 3 <= |t| < 19 && i < |t| && t[0] == 115 && t[1] == 107 && t[2] == DASH
    requires forall k :: 3 <= k < |t| ==> Letter(t[k])
    ensures !SecretAt(t, i)
  {
    forall k | 0 <= k < |t| ensures !Space(t[k]) && t[k] != EQUALS {}
    StartUnits(t, i, BEGIN);
    if BearerAt(t, i) { BearerHasSpace(t, i); }
  }

  /** An assignment may have white space before its equals sign, and nothing else. */
  lemma {:induction false} Assignment(w: Text, blanks: Text, rest: Text)
    requires w == Ascii("password") || w == Ascii("token")
    requires forall k :: 0 <= k < |blanks| ==> Space(blanks[k])
    ensures SecretShaped(w + blanks + [EQUALS] + rest)
  {
    hide Space;
    PatternSpelled();
    var t := w + blanks + [EQUALS] + rest;
    var j := |w| + |blanks|;
    assert t[0..|w|] == w && t[0] == w[0] && t[j] == EQUALS;
    forall k | |w| <= k < j ensures Space(t[k]) { assert t[k] == blanks[k - |w|]; }
    assert SpacesBetween(t, 0 + |w|, j);
    assert AssignedAt(t, 0, w);
    assert SecretAt(t, 0);
  }

  /** A bearer token is one unit or more after white space. */
  lemma {:induction false} BearerToken(blanks: Text, rest: Text)
    requires |blanks| >= 1 && forall k :: 0 <= k < |blanks| ==> Space(blanks[k])
    requires |rest| >= 1 && !Space(rest[0])
    ensures SecretShaped(Ascii("Bearer") + blanks + rest)
  {
    hide Space;
    PatternSpelled();
    var t := BEARER + blanks + rest;
    var j := 6 + |blanks|;
    assert t[0..6] == BEARER && t[0] == 66 && t[j] == rest[0];
    forall k | 6 <= k < j ensures Space(t[k]) { assert t[k] == blanks[k - 6]; }
    assert SpacesBetween(t, 0 + 6, j);
    assert BearerAt(t, 0);
    assert SecretAt(t, 0);
  }
}
