/** The formats of names, paths and versions that several schemas ask for. */
module Formats {
  import opened Wrappers
  import opened Text

  const SLASH: CodeUnit := 47
  const DASH: CodeUnit := 45
  const DOT: CodeUnit := 46
  const LETTER_G: CodeUnit := 103
  const LETTER_V: CodeUnit := 118

  /** The parts between slashes. */
  function Parts(t: Text): (parts: seq<Text>)
    ensures parts != []
  {
    if t == [] then [[]]
    else
      var rest := Parts(t[1..]);
      if t[0] == SLASH then [[]] + rest else [[t[0]] + rest[0]] + rest[1..]
  }

  predicate IsDigit(c: CodeUnit) { 48 <= c <= 57 }

  predicate IsHex(c: CodeUnit) { IsDigit(c) || 97 <= c <= 102 }

  predicate Alphanumeric(c: CodeUnit) { IsDigit(c) || 65 <= c <= 90 || 97 <= c <= 122 }

  /** The pattern of run ids, which world instances, capability identities, agents and engines
      have to match too where they are reported. */
  predicate RunIdText(t: Text) {
    && 1 <= |t| <= 128 && Alphanumeric(t[0])
    && forall i :: 0 <= i < |t| ==> Alphanumeric(t[i]) || t[i] == DOT || t[i] == 95 || t[i] == 58 || t[i] == DASH
  }

  /** What follows a non-empty run of digits. */
  function AfterDigits(t: Text): Option<Text> {
    if t == [] || !IsDigit(t[0]) then None
    else if |t| > 1 && IsDigit(t[1]) then AfterDigits(t[1..])
    else Some(t[1..])
  }

  /** What follows the character. */
  function After(c: CodeUnit, t: Option<Text>): Option<Text> {
    if t.Some? && t.value != [] && t.value[0] == c then Some(t.value[1..]) else None
  }

  function ThenDigits(t: Option<Text>): Option<Text> { if t.None? then None else AfterDigits(t.value) }

  /** What follows the three numbers of a version, with or without a leading v. */
  function AfterVersion(t: Text): Option<Text> {
    var numbers := if t != [] && t[0] == LETTER_V then t[1..] else t;
    ThenDigits(After(DOT, ThenDigits(After(DOT, AfterDigits(numbers)))))
  }

  /** A release version, which may go on to describe the source revision it was built from. */
  predicate ReleaseText(version: Text, revision: Text) {
    var rest := AfterVersion(version);
    && rest.Some?
    && (rest.value != [] ==>
          var described := After(LETTER_G, After(DASH, ThenDigits(After(DASH, rest))));
          && described.Some? && 7 <= |described.value| <= 40 && described.value <= revision
          && forall i :: 0 <= i < |described.value| ==> IsHex(described.value[i]))
  }

  /** Run ids have 1 to 128 units. */
  lemma {:induction false} RunIdBounds(n: nat)
    ensures RunIdText(seq(n, _ => 97)) <==> 1 <= n <= 128
  {
  }
}
