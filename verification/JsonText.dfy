/** JSON values, the text that JSON.stringify prints for them (RFC 8259
    sections 4 to 7, with the escapes of ECMA-262 section 25.5.2.3) and a reader
    of that text. Objects keep their members in enumeration order. */
module JsonText {
  import opened Wrappers
  import opened Text
  import Numbers

  datatype Json =
    | Null
    | Bool(b: bool)
    | Num(n: Numbers.Number)
    | Str(s: Text)
    | Arr(items: seq<Json>)
    | Obj(members: seq<Member>)

  datatype Member = Member(key: Text, value: Json)

  /** Every number inside is a canonical triple and none is a negative zero. */
  predicate Clean(v: Json) {
    match v
    case Num(n) => Numbers.WellFormed(n) && n == Numbers.DropNegativeZero(n)
    case Arr(items) => forall i :: 0 <= i < |items| ==> Clean(items[i])
    case Obj(members) => forall i :: 0 <= i < |members| ==> Clean(members[i].value)
    case _ => true
  }

  const QUOTE: CodeUnit := 34
  const BACKSLASH: CodeUnit := 92
  const COMMA: CodeUnit := 44
  const COLON: CodeUnit := 58
  const OPEN_BRACKET: CodeUnit := 91
  const CLOSE_BRACKET: CodeUnit := 93
  const OPEN_BRACE: CodeUnit := 123
  const CLOSE_BRACE: CodeUnit := 125
  const NULL_TEXT: Text := [110, 117, 108, 108]
  const TRUE_TEXT: Text := [116, 114, 117, 101]
  const FALSE_TEXT: Text := [102, 97, 108, 115, 101]

  // ---- strings --------------------------------------------------------------

  predicate IsHighSurrogate(c: CodeUnit) { 0xD800 <= c < 0xDC00 }
  predicate IsLowSurrogate(c: CodeUnit) { 0xDC00 <= c < 0xE000 }

  function HexDigit(n: int): CodeUnit
    requires 0 <= n < 16
  {
    if n < 10 then 48 + n else 87 + n
  }

  function UnicodeEscape(c: CodeUnit): Text {
    var n: int := c;
    [BACKSLASH, 117, HexDigit(n / 4096), HexDigit(n / 256 % 16), HexDigit(n / 16 % 16), HexDigit(n % 16)]
  }

  /** One code unit that does not start a surrogate pair. */
  function EscapeUnit(c: CodeUnit): Text {
    if c == 8 then [BACKSLASH, 98]
    else if c == 9 then [BACKSLASH, 116]
    else if c == 10 then [BACKSLASH, 110]
    else if c == 12 then [BACKSLASH, 102]
    else if c == 13 then [BACKSLASH, 114]
    else if c == QUOTE || c == BACKSLASH then [BACKSLASH, c]
    else if c < 0x20 || IsHighSurrogate(c) || IsLowSurrogate(c) then UnicodeEscape(c)
    else [c]
  }

  function EscapeUnits(s: Text): Text {
    if s == [] then []
    else if IsHighSurrogate(s[0]) && |s| > 1 && IsLowSurrogate(s[1]) then s[..2] + EscapeUnits(s[2..])
    else EscapeUnit(s[0]) + EscapeUnits(s[1..])
  }

  function Quote(s: Text): Text { [QUOTE] + EscapeUnits(s) + [QUOTE] }

  function HexValue(c: CodeUnit): (r: Option<int>)
    ensures r.Some? ==> 0 <= r.value < 16
  {
    var n: int := c;
    if 48 <= n < 58 then Some(n - 48)
    else if 97 <= n < 103 then Some(n - 87)
    else if 65 <= n < 71 then Some(n - 55)
    else None
  }

  /** One code unit of a string body, with how many units of text it took. */
  function ReadUnit(t: Text): (r: Option<(CodeUnit, nat)>)
    requires t != []
    ensures r.Some? ==> 0 < r.value.1 <= |t|
  {
    if t[0] < 0x20 || t[0] == QUOTE then None
    else if t[0] != BACKSLASH then Some((t[0], 1))
    else if |t| < 2 then None
    else match t[1]
      case 98 => Some((8, 2))
      case 116 => Some((9, 2))
      case 110 => Some((10, 2))
      case 102 => Some((12, 2))
      case 114 => Some((13, 2))
      case 34 => Some((34, 2))
      case 92 => Some((92, 2))
      case 47 => Some((47, 2))
      case 117 =>
        if |t| < 6 then None
        else
          var a, b, c, d := HexValue(t[2]), HexValue(t[3]), HexValue(t[4]), HexValue(t[5]);
          if a.None? || b.None? || c.None? || d.None? then None
          else Some((((a.value * 16 + b.value) * 16 + c.value) * 16 + d.value, 6))
      case _ => None
  }

  /** The rest of a string after its opening quote, and what follows the closing one. */
  function ReadUnits(t: Text): (r: Option<(Text, Text)>)
    ensures r.Some? ==> |r.value.1| < |t|
    decreases |t|
  {
    if t == [] then None
    else if t[0] == QUOTE then Some(([], t[1..]))
    else match ReadUnit(t)
      case None => None
      case Some((c, used)) =>
        match ReadUnits(t[used..])
        case None => None
        case Some((s, rest)) => Some(([c] + s, rest))
  }

  lemma {:induction false} HexValueOfDigit(n: int)
    requires 0 <= n < 16
    ensures HexValue(HexDigit(n)) == Some(n)
  {
  }

  lemma {:induction false} HexRecomposes(n: int)
    requires 0 <= n < 0x10000
    ensures ((n / 4096 * 16 + n / 256 % 16) * 16 + n / 16 % 16) * 16 + n % 16 == n
  {
    assert n / 256 == n / 4096 * 16 + n / 256 % 16;
    assert n / 16 == n / 256 * 16 + n / 16 % 16;
  }

  lemma {:induction false} ReadUnicodeEscape(c: CodeUnit, t: Text)
    requires UnicodeEscape(c) <= t
    ensures ReadUnit(t) == Some((c, 6))
  {
    var n: int := c;
    assert t[1] == UnicodeEscape(c)[1] && t[2] == UnicodeEscape(c)[2] && t[3] == UnicodeEscape(c)[3];
    assert t[4] == UnicodeEscape(c)[4] && t[5] == UnicodeEscape(c)[5];
    HexValueOfDigit(n / 4096);
    HexValueOfDigit(n / 256 % 16);
    HexValueOfDigit(n / 16 % 16);
    HexValueOfDigit(n % 16);
    HexRecomposes(n);
  }

  lemma {:induction false} ReadUnitOfEscape(c: CodeUnit, rest: Text)
    ensures EscapeUnit(c)[0] != QUOTE
    ensures ReadUnit(EscapeUnit(c) + rest) == Some((c, |EscapeUnit(c)|))
    ensures (EscapeUnit(c) + rest)[|EscapeUnit(c)|..] == rest
  {
    var t := EscapeUnit(c) + rest;
    assert EscapeUnit(c) <= t;
    if EscapeUnit(c) == UnicodeEscape(c) {
      ReadUnicodeEscape(c, t);
    } else {
      assert t[0] == EscapeUnit(c)[0];
      assert |EscapeUnit(c)| == 2 ==> t[1] == EscapeUnit(c)[1];
    }
  }

  lemma {:induction false} ReadPlainUnit(c: CodeUnit, t: Text)
    requires t != [] && t[0] == c && c >= 0x20 && c != QUOTE && c != BACKSLASH
    ensures ReadUnits(t) ==
      match ReadUnits(t[1..])
      case None => None
      case Some((s, rest)) => Some(([c] + s, rest))
  {
  }

  lemma {:induction false} Regroup2(a: Text, b: Text, c: Text)
    ensures a + b + c == a + (b + c)
  {
  }

  lemma {:induction false} ReadUnitsOfEscape(s: Text, rest: Text)
    ensures ReadUnits(EscapeUnits(s) + ([QUOTE] + rest)) == Some((s, rest))
    decreases |s|
  {
    var end := [QUOTE] + rest;
    if s == [] {
      ReadUnitsAtEnd(rest);
      assert EscapeUnits(s) + end == end;
    } else if IsHighSurrogate(s[0]) && |s| > 1 && IsLowSurrogate(s[1]) {
      var u := EscapeUnits(s[2..]) + end;
      assert EscapeUnits(s) + end == s[..2] + u by { Regroup2(s[..2], EscapeUnits(s[2..]), end); }
      assert ReadUnits(u) == Some((s[2..], rest)) by { ReadUnitsOfEscape(s[2..], rest); }
      ReadPair(s, u, rest);
    } else {
      var u := EscapeUnits(s[1..]) + end;
      assert EscapeUnits(s) + end == EscapeUnit(s[0]) + u by {
        Regroup2(EscapeUnit(s[0]), EscapeUnits(s[1..]), end);
      }
      assert ReadUnits(u) == Some((s[1..], rest)) by { ReadUnitsOfEscape(s[1..], rest); }
      ReadEscaped(s, u, rest);
    }
  }

  lemma {:induction false} ReadUnitsAtEnd(rest: Text)
    ensures ReadUnits([QUOTE] + rest) == Some(([], rest))
  {
    assert ([QUOTE] + rest)[1..] == rest;
  }

  lemma {:induction false} ReadPair(s: Text, u: Text, rest: Text)
    requires |s| > 1 && IsHighSurrogate(s[0]) && IsLowSurrogate(s[1])
    requires ReadUnits(u) == Some((s[2..], rest))
    ensures ReadUnits(s[..2] + u) == Some((s, rest))
  {
    var t := s[..2] + u;
    assert t[1..][1..] == u;
    ReadPlainUnit(s[1], t[1..]);
    ReadPlainUnit(s[0], t);
    assert [s[0]] + ([s[1]] + s[2..]) == s;
  }

  lemma {:induction false} ReadEscaped(s: Text, u: Text, rest: Text)
    requires s != [] && ReadUnits(u) == Some((s[1..], rest))
    ensures ReadUnits(EscapeUnit(s[0]) + u) == Some((s, rest))
  {
    var t := EscapeUnit(s[0]) + u;
    ReadUnitOfEscape(s[0], u);
    assert t[0] == EscapeUnit(s[0])[0];
    assert [s[0]] + s[1..] == s;
  }

  lemma {:induction false} ReadOfQuote(s: Text, rest: Text)
    ensures Quote(s) + rest != [] && (Quote(s) + rest)[0] == QUOTE
    ensures ReadUnits((Quote(s) + rest)[1..]) == Some((s, rest))
  {
    ReadUnitsOfEscape(s, rest);
    assert (Quote(s) + rest)[1..] == EscapeUnits(s) + ([QUOTE] + rest);
  }

  // ---- which of the texts of a string is printed -----------------------------------

  /** Every surrogate is half of a pair. */
  predicate Paired(t: Text) { forall i :: 0 <= i < |t| ==> PairedAt(t, i) }

  predicate PairedAt(t: Text, i: nat)
    requires i < |t|
  {
    && (IsHighSurrogate(t[i]) ==> i + 1 < |t| && IsLowSurrogate(t[i + 1]))
    && (IsLowSurrogate(t[i]) ==> i > 0 && IsHighSurrogate(t[i - 1]))
  }

  /** No escape up to the closing quote has an upper-case digit. */
  predicate LowerHex(t: Text)
    decreases |t|
  {
    t == [] || t[0] == QUOTE ||
    match ReadUnit(t)
    case None => true
    case Some((_, used)) => (used == 6 ==> forall k :: 2 <= k < 6 ==> !(65 <= t[k] < 71)) && LowerHex(t[used..])
  }

  lemma {:induction false} PairedRest(t: Text, n: nat)
    requires Paired(t) && 0 < n <= |t| && !IsHighSurrogate(t[n - 1])
    ensures Paired(t[n..])
  {
    forall i | 0 <= i < |t[n..]| ensures PairedAt(t[n..], i) { assert PairedAt(t, n + i); }
  }

  lemma {:induction false} PairedConcat(a: Text, b: Text)
    requires Paired(a) && Paired(b)
    ensures Paired(a + b)
  {
    var t := a + b;
    forall i | 0 <= i < |t| ensures PairedAt(t, i) {
      if i < |a| { assert PairedAt(a, i); } else { assert PairedAt(b, i - |a|); }
    }
  }

  lemma {:induction false} NothingIsPaired()
    ensures Paired([])
  {
  }

  lemma {:induction false} EscapeIsPaired(c: CodeUnit)
    ensures Paired(EscapeUnit(c))
  {
    var t := EscapeUnit(c);
    forall i | 0 <= i < |t| ensures PairedAt(t, i) {}
  }

  lemma {:induction false} PairIsPaired(p: Text)
    requires |p| == 2 && IsHighSurrogate(p[0]) && IsLowSurrogate(p[1])
    ensures Paired(p)
  {
  }

  /** What is printed has no half of a pair on its own, and only lower-case digits. */
  lemma {:induction false} PrintedIsPaired(s: Text)
    ensures Paired(EscapeUnits(s))
    decreases |s|
  {
    hide EscapeUnit, Paired;
    if s == [] {
      assert Paired([]) by { NothingIsPaired(); }
    } else {
      if IsHighSurrogate(s[0]) && |s| > 1 && IsLowSurrogate(s[1]) {
        PrintedIsPaired(s[2..]);
        PairIsPaired(s[..2]);
        PairedConcat(s[..2], EscapeUnits(s[2..]));
      } else {
        PrintedIsPaired(s[1..]);
        EscapeIsPaired(s[0]);
        PairedConcat(EscapeUnit(s[0]), EscapeUnits(s[1..]));
      }
    }
  }

  lemma {:induction false} EscapeIsLower(c: CodeUnit)
    ensures |EscapeUnit(c)| == 6 ==> forall k :: 2 <= k < 6 ==> !(65 <= EscapeUnit(c)[k] < 71)
  {
  }

  lemma {:induction false} PrintedIsLower(s: Text, rest: Text)
    ensures LowerHex(EscapeUnits(s) + ([QUOTE] + rest))
    decreases |s|
  {
    hide EscapeUnit, ReadUnit;
    var end := [QUOTE] + rest;
    if s == [] {
      assert EscapeUnits(s) + end == end;
    } else if IsHighSurrogate(s[0]) && |s| > 1 && IsLowSurrogate(s[1]) {
      var u := EscapeUnits(s[2..]) + end;
      PrintedIsLower(s[2..], rest);
      Regroup2(s[..2], EscapeUnits(s[2..]), end);
      LowerPair(s[..2], u);
    } else {
      var u := EscapeUnits(s[1..]) + end;
      PrintedIsLower(s[1..], rest);
      Regroup2(EscapeUnit(s[0]), EscapeUnits(s[1..]), end);
      ReadUnitOfEscape(s[0], u);
      EscapeIsLower(s[0]);
    }
  }

  lemma {:induction false} LowerPair(p: Text, u: Text)
    requires |p| == 2 && IsHighSurrogate(p[0]) && IsLowSurrogate(p[1]) && LowerHex(u)
    ensures LowerHex(p + u)
  {
    var t := p + u;
    assert t[1..][1..] == u;
    assert ReadUnit(t) == Some((p[0], 1)) && ReadUnit(t[1..]) == Some((p[1], 1));
  }

  /** A unit takes no fewer units of text than its escape, and with as many, in lower case, it is
      the escape. */
  lemma {:induction false} ShortestUnit(t: Text)
    requires t != [] && ReadUnit(t).Some?
    ensures
      var (c, used) := ReadUnit(t).value;
      && (used > 1 || !(IsHighSurrogate(c) || IsLowSurrogate(c)) ==> |EscapeUnit(c)| <= used)
      && (|EscapeUnit(c)| == used && (used == 6 ==> forall k :: 2 <= k < 6 ==> !(65 <= t[k] < 71)) ==>
            t[..used] == EscapeUnit(c))
  {
    var (c, used) := ReadUnit(t).value;
    if used == 6 && |EscapeUnit(c)| == 6 && forall k :: 2 <= k < 6 ==> !(65 <= t[k] < 71) {
      assert EscapeUnit(c) == UnicodeEscape(c);
      SameHex(t, c);
    }
  }

  lemma {:induction false} SameHex(t: Text, c: CodeUnit)
    requires |t| >= 6 && ReadUnit(t) == Some((c, 6)) && forall k :: 2 <= k < 6 ==> !(65 <= t[k] < 71)
    ensures t[..6] == UnicodeEscape(c)
  {
    var a, b, d, e := HexValue(t[2]), HexValue(t[3]), HexValue(t[4]), HexValue(t[5]);
    ReadsHex(t, c);
    LowerDigit(t[2]);
    LowerDigit(t[3]);
    LowerDigit(t[4]);
    LowerDigit(t[5]);
    HexParts(a.value, b.value, d.value, e.value, c);
  }

  lemma {:induction false} ReadsHex(t: Text, c: CodeUnit)
    requires |t| >= 6 && ReadUnit(t) == Some((c, 6))
    ensures t[0] == BACKSLASH && t[1] == 117
    ensures HexValue(t[2]).Some? && HexValue(t[3]).Some? && HexValue(t[4]).Some? && HexValue(t[5]).Some?
    ensures c == ((HexValue(t[2]).value * 16 + HexValue(t[3]).value) * 16 + HexValue(t[4]).value) * 16
                 + HexValue(t[5]).value
  {
    hide HexValue;
  }

  lemma {:induction false} LowerDigit(c: CodeUnit)
    requires HexValue(c).Some? && !(65 <= c < 71)
    ensures HexDigit(HexValue(c).value) == c
  {
  }

  lemma {:induction false} HexParts(a: int, b: int, d: int, e: int, n: int)
    requires 0 <= a < 16 && 0 <= b < 16 && 0 <= d < 16 && 0 <= e < 16 && n == ((a * 16 + b) * 16 + d) * 16 + e
    ensures n / 4096 == a && n / 256 % 16 == b && n / 16 % 16 == d && n % 16 == e
  {
    assert n / 16 == (a * 16 + b) * 16 + d && n % 16 == e;
    assert n / 256 == a * 16 + b;
  }

  /** Of all texts that a reader takes for this string, with no half of a pair in them, the printed
      one is a shortest, and the only shortest in lower case: the short escapes where there are any, a
      unit as it is where that is allowed, and nothing else. */
  lemma {:induction false} ShortestBody(s: Text, u: Text)
    requires Paired(u) && ReadUnits(u + [QUOTE]) == Some((s, []))
    ensures |EscapeUnits(s)| <= |u|
    ensures |EscapeUnits(s)| == |u| && LowerHex(u + [QUOTE]) ==> u == EscapeUnits(s)
    decreases |u|
  {
    hide EscapeUnit, ReadUnit, LowerHex;
    var t := u + [QUOTE];
    if u == [] {
      assert s == [];
    } else {
      FirstUnit(s, u);
      var (c, used) := ReadUnit(t).value;
      ShortestUnit(t);
      LowerRest(t);
      if used == 1 && IsHighSurrogate(c) {
        FirstPair(s, u);
        ShortestBody(s[2..], u[2..]);
        assert u == s[..2] + u[2..];
      } else {
        PairedRest(u, used);
        ShortestBody(s[1..], u[used..]);
        LongerByOne(s, used, |u[used..]|);
        assert u == t[..used] + u[used..];
      }
    }
  }

  /** One unit that takes so many units of text, before the rest of the string. */
  lemma {:induction false} LongerByOne(s: Text, used: nat, rest: nat)
    requires s != [] && |EscapeUnit(s[0])| <= used && |EscapeUnits(s[1..])| <= rest
    ensures |EscapeUnits(s)| <= used + rest
    ensures |EscapeUnits(s)| == used + rest ==>
      && |EscapeUnit(s[0])| == used && |EscapeUnits(s[1..])| == rest
      && EscapeUnits(s) == EscapeUnit(s[0]) + EscapeUnits(s[1..])
  {
    hide EscapeUnit;
    if IsHighSurrogate(s[0]) && |s| > 1 && IsLowSurrogate(s[1]) {
      SurrogateTakesSix(s[0]);
      SurrogateTakesSix(s[1]);
      assert s[1..][1..] == s[2..];
    }
  }

  /** A high surrogate that stands as it is, and the low one that must follow it. */
  lemma {:induction false} FirstPair(s: Text, u: Text)
    requires u != [] && Paired(u) && ReadUnits(u + [QUOTE]) == Some((s, []))
    requires ReadUnit(u + [QUOTE]) == Some((u[0], 1)) && IsHighSurrogate(u[0])
    ensures |u| > 1 && |s| > 1 && s[..2] == u[..2] && IsLowSurrogate(s[1])
    ensures Paired(u[2..]) && ReadUnits(u[2..] + [QUOTE]) == Some((s[2..], []))
    ensures LowerHex(u + [QUOTE]) ==> LowerHex(u[2..] + [QUOTE])
  {
    hide ReadUnit, LowerHex;
    var t, w := u + [QUOTE], u[1..];
    assert PairedAt(u, 0);
    FirstUnit(s, u);
    var v := w + [QUOTE];
    assert v == t[1..] && v[0] == u[1];
    RawUnit(v);
    assert v[1..] == u[2..] + [QUOTE];
    assert s[0] == u[0];
    assert ReadUnits(v) == Some((s[1..], []));
    RawRead(v, s[1..]);
    LowerRest(t);
    LowerRest(v);
    assert PairedAt(u, 1);
    PairedRest(u, 2);
    assert s[1..][1..] == s[2..];
  }

  lemma {:induction false} RawRead(v: Text, s: Text)
    requires v != [] && IsLowSurrogate(v[0]) && ReadUnits(v) == Some((s, []))
    ensures s != [] && s[0] == v[0] && ReadUnits(v[1..]) == Some((s[1..], []))
  {
    RawUnit(v);
    var rest := ReadUnits(v[1..]);
    assert rest.Some? && s == [v[0]] + rest.value.0;
  }

  lemma {:induction false} SurrogateTakesSix(c: CodeUnit)
    requires IsHighSurrogate(c) || IsLowSurrogate(c)
    ensures |EscapeUnit(c)| == 6
  {
  }

  lemma {:induction false} RawUnit(t: Text)
    requires t != [] && IsLowSurrogate(t[0])
    ensures ReadUnit(t) == Some((t[0], 1))
  {
  }

  lemma {:induction false} LowerRest(t: Text)
    requires t != [] && t[0] != QUOTE && ReadUnit(t).Some?
    ensures
      var (_, used) := ReadUnit(t).value;
      LowerHex(t) ==> (used == 6 ==> forall k :: 2 <= k < 6 ==> !(65 <= t[k] < 71)) && LowerHex(t[used..])
  {
  }

  lemma {:induction false} FirstUnit(s: Text, u: Text)
    requires u != [] && Paired(u) && ReadUnits(u + [QUOTE]) == Some((s, []))
    ensures
      var t := u + [QUOTE];
      && t[0] != QUOTE && ReadUnit(t).Some?
      && var (c, used) := ReadUnit(t).value;
         && s != [] && s[0] == c && used <= |u| && t[used..] == u[used..] + [QUOTE]
         && ReadUnits(u[used..] + [QUOTE]) == Some((s[1..], []))
         && (used == 1 ==> u[0] == c && !IsLowSurrogate(c)) && (used > 1 ==> !IsHighSurrogate(u[used - 1]))
  {
    hide ReadUnit;
    var t := u + [QUOTE];
    assert t[0] == u[0] && |t| == |u| + 1;
    assert |t[1..]| == |u|;
    var (c, used) := ReadUnit(t).value;
    assert ReadUnits(t[used..]).Some?;
    assert t[used..] == u[used..] + [QUOTE];
    assert s == [c] + s[1..];
    UnitTakes(t);
    assert PairedAt(u, 0);
    assert used > 1 ==> t[used - 1] == u[used - 1];
  }

  lemma {:induction false} UnitTakes(t: Text)
    requires t != [] && ReadUnit(t).Some?
    ensures
      var (c, used) := ReadUnit(t).value;
      (used == 1 ==> t[0] == c) && (used > 1 ==> !IsHighSurrogate(t[used - 1]))
  {
  }

  // ---- values ---------------------------------------------------------------

  function Print(v: Json): Text {
    match v
    case Null => NULL_TEXT
    case Bool(b) => if b then TRUE_TEXT else FALSE_TEXT
    case Num(n) => Numbers.Print(n)
    case Str(s) => Quote(s)
    case Arr(items) => [OPEN_BRACKET] + PrintItems(items) + [CLOSE_BRACKET]
    case Obj(members) => [OPEN_BRACE] + PrintMembers(members) + [CLOSE_BRACE]
  }

  function PrintItems(items: seq<Json>): Text {
    if items == [] then []
    else if |items| == 1 then Print(items[0])
    else Print(items[0]) + [COMMA] + PrintItems(items[1..])
  }

  function PrintMember(m: Member): Text { Quote(m.key) + [COLON] + Print(m.value) }

  function PrintMembers(members: seq<Member>): Text {
    if members == [] then []
    else if |members| == 1 then PrintMember(members[0])
    else PrintMember(members[0]) + [COMMA] + PrintMembers(members[1..])
  }

  /** A value at the front of the text, with what follows it. Only whitespace
      between tokens, which no printer here produces, is not read. */
  function Read(t: Text): (r: Option<(Json, Text)>)
    ensures r.Some? ==> |r.value.1| < |t|
    decreases |t|, 0
  {
    if t == [] then None
    else if NULL_TEXT <= t then Some((Null, t[4..]))
    else if TRUE_TEXT <= t then Some((Bool(true), t[4..]))
    else if FALSE_TEXT <= t then Some((Bool(false), t[5..]))
    else if t[0] == QUOTE then
      match ReadUnits(t[1..])
      case None => None
      case Some((s, rest)) => Some((Str(s), rest))
    else if t[0] == OPEN_BRACKET then
      if |t| > 1 && t[1] == CLOSE_BRACKET then Some((Arr([]), t[2..]))
      else
        match ReadItems(t[1..])
        case None => None
        case Some((items, rest)) => Some((Arr(items), rest))
    else if t[0] == OPEN_BRACE then
      if |t| > 1 && t[1] == CLOSE_BRACE then Some((Obj([]), t[2..]))
      else
        match ReadMembers(t[1..])
        case None => None
        case Some((members, rest)) => Some((Obj(members), rest))
    else
      match Numbers.Read(t)
      case None => None
      case Some((n, rest)) => Some((Num(n), rest))
  }

  function ReadItems(t: Text): (r: Option<(seq<Json>, Text)>)
    ensures r.Some? ==> |r.value.1| < |t|
    decreases |t|, 1
  {
    match Read(t)
    case None => None
    case Some((v, u)) =>
      if u != [] && u[0] == CLOSE_BRACKET then Some(([v], u[1..]))
      else if u != [] && u[0] == COMMA then
        match ReadItems(u[1..])
        case None => None
        case Some((items, rest)) => Some(([v] + items, rest))
      else None
  }

  function ReadMembers(t: Text): (r: Option<(seq<Member>, Text)>)
    ensures r.Some? ==> |r.value.1| < |t|
    decreases |t|, 1
  {
    match ReadMember(t)
    case None => None
    case Some((m, u)) =>
      if u != [] && u[0] == CLOSE_BRACE then Some(([m], u[1..]))
      else if u != [] && u[0] == COMMA then
        match ReadMembers(u[1..])
        case None => None
        case Some((members, rest)) => Some(([m] + members, rest))
      else None
  }

  function ReadMember(t: Text): (r: Option<(Member, Text)>)
    ensures r.Some? ==> |r.value.1| < |t|
    decreases |t|, 0
  {
    if t == [] || t[0] != QUOTE then None
    else
      match ReadUnits(t[1..])
      case None => None
      case Some((key, u)) =>
        if u == [] || u[0] != COLON then None
        else
          match Read(u[1..])
          case None => None
          case Some((v, rest)) => Some((Member(key, v), rest))
  }

  // ---- reading a printed value gives the value back -----------------------------

  lemma {:induction false} Regroup3(a: Text, b: Text, c: Text, d: Text)
    ensures a + b + c + d == a + (b + (c + d))
  {
  }

  /** No printed value starts with a closing bracket or brace. */
  lemma {:induction false} PrintStarts(v: Json)
    requires Clean(v)
    ensures Print(v) != [] && Print(v)[0] != CLOSE_BRACKET && Print(v)[0] != CLOSE_BRACE
  {
  }

  lemma {:induction false} ReadOfPrint(v: Json, rest: Text)
    requires Clean(v) && Numbers.EndsNumber(rest)
    ensures Read(Print(v) + rest) == Some((v, rest))
    decreases v, 0
  {
    hide ReadItems, PrintItems, ReadMembers, PrintMembers, ReadUnits, Quote;
    var t := Print(v) + rest;
    match v {
      case Null => assert t[..4] == NULL_TEXT && t[4..] == rest;
      case Bool(b) =>
        if b {
          assert t[0] == TRUE_TEXT[0] && t[..4] == TRUE_TEXT && t[4..] == rest;
        } else {
          assert t[0] == FALSE_TEXT[0] && t[..5] == FALSE_TEXT && t[5..] == rest;
        }
      case Num(n) => ReadOfNumber(n, rest);
      case Str(s) => ReadOfQuote(s, rest);
      case Arr(items) => ReadOfArray(items, rest);
      case Obj(members) => ReadOfObject(members, rest);
    }
  }

  lemma {:induction false} NumberStarts(n: Numbers.Number)
    requires Numbers.WellFormed(n)
    ensures Numbers.Print(n) != []
    ensures Numbers.Print(n)[0] == Numbers.CHAR_MINUS || 48 <= Numbers.Print(n)[0] < 58
  {
  }

  lemma {:induction false} ReadOfNumber(n: Numbers.Number, rest: Text)
    requires Clean(Num(n)) && Numbers.EndsNumber(rest)
    ensures Read(Print(Num(n)) + rest) == Some((Num(n), rest))
  {
    hide Numbers.Read, Numbers.Print;
    Numbers.ReadOfPrint(n, rest);
    NumberStarts(n);
    var t := Numbers.Print(n) + rest;
    assert t[0] == Numbers.Print(n)[0];
    assert !(NULL_TEXT <= t) && !(TRUE_TEXT <= t) && !(FALSE_TEXT <= t);
  }

  lemma {:induction false} ReadOfArray(items: seq<Json>, rest: Text)
    requires Clean(Arr(items)) && Numbers.EndsNumber(rest)
    ensures Read(Print(Arr(items)) + rest) == Some((Arr(items), rest))
    decreases items, 2
  {
    hide ReadItems, ReadUnits;
    var t := Print(Arr(items)) + rest;
    if items == [] {
      assert t[1] == CLOSE_BRACKET && t[2..] == rest;
    } else {
      var inner := PrintItems(items) + ([CLOSE_BRACKET] + rest);
      assert t[1..] == inner by { Regroup3([OPEN_BRACKET], PrintItems(items), [CLOSE_BRACKET], rest); }
      ReadOfItems(items, rest);
      PrintStarts(items[0]);
      assert t[1] == Print(items[0])[0];
    }
  }

  lemma {:induction false} ReadOfItems(items: seq<Json>, rest: Text)
    requires items != [] && Clean(Arr(items))
    ensures ReadItems(PrintItems(items) + ([CLOSE_BRACKET] + rest)) == Some((items, rest))
    decreases items, 1
  {
    hide Read, Print;
    var end := [CLOSE_BRACKET] + rest;
    if |items| == 1 {
      ReadOfPrint(items[0], end);
      assert items == [items[0]] && end[1..] == rest;
    } else {
      var tail := PrintItems(items[1..]) + end;
      var next := [COMMA] + tail;
      assert PrintItems(items) + end == Print(items[0]) + next by {
        Regroup3(Print(items[0]), [COMMA], PrintItems(items[1..]), end);
      }
      ReadOfPrint(items[0], next);
      ReadOfItems(items[1..], rest);
      assert next[1..] == tail;
      assert items == [items[0]] + items[1..];
    }
  }

  lemma {:induction false} ReadOfObject(members: seq<Member>, rest: Text)
    requires Clean(Obj(members)) && Numbers.EndsNumber(rest)
    ensures Read(Print(Obj(members)) + rest) == Some((Obj(members), rest))
    decreases members, 3
  {
    hide ReadMembers, ReadUnits;
    var t := Print(Obj(members)) + rest;
    if members == [] {
      assert t[1] == CLOSE_BRACE && t[2..] == rest;
    } else {
      var inner := PrintMembers(members) + ([CLOSE_BRACE] + rest);
      assert t[1..] == inner by { Regroup3([OPEN_BRACE], PrintMembers(members), [CLOSE_BRACE], rest); }
      ReadOfMembers(members, rest);
      assert t[1] == QUOTE;
    }
  }

  lemma {:induction false} ReadOfMembers(members: seq<Member>, rest: Text)
    requires members != [] && Clean(Obj(members))
    ensures ReadMembers(PrintMembers(members) + ([CLOSE_BRACE] + rest)) == Some((members, rest))
    decreases members, 2
  {
    hide ReadMember;
    var end := [CLOSE_BRACE] + rest;
    if |members| == 1 {
      ReadOfMember(members[0], end);
      assert members == [members[0]] && end[1..] == rest;
    } else {
      var tail := PrintMembers(members[1..]) + end;
      var next := [COMMA] + tail;
      assert PrintMembers(members) + end == PrintMember(members[0]) + next by {
        Regroup3(PrintMember(members[0]), [COMMA], PrintMembers(members[1..]), end);
      }
      ReadOfMember(members[0], next);
      ReadOfMembers(members[1..], rest);
      assert next[1..] == tail;
      assert members == [members[0]] + members[1..];
    }
  }

  lemma {:induction false} ReadOfMember(m: Member, rest: Text)
    requires Clean(m.value) && Numbers.EndsNumber(rest)
    ensures ReadMember(PrintMember(m) + rest) == Some((m, rest))
    decreases m, 1
  {
    hide Read, Print, ReadUnits, Quote;
    var value := Print(m.value) + rest;
    var u := [COLON] + value;
    assert PrintMember(m) + rest == Quote(m.key) + u by {
      Regroup3(Quote(m.key), [COLON], Print(m.value), rest);
    }
    ReadOfQuote(m.key, u);
    assert u[1..] == value;
    ReadOfPrint(m.value, rest);
  }

  /** The whole text of a value reads back as that value and nothing more. */
  function Parse(t: Text): Option<Json> {
    match Read(t)
    case Some((v, rest)) => if rest == [] then Some(v) else None
    case None => None
  }

  lemma {:induction false} ParseOfPrint(v: Json)
    requires Clean(v)
    ensures Parse(Print(v)) == Some(v)
  {
    ReadOfPrint(v, []);
    assert Print(v) + [] == Print(v);
  }

  /** The tokens themselves. */
  lemma {:induction false} ListWritten()
    ensures Print(Arr([Null, Bool(true), Bool(false)])) == Ascii("[null,true,false]")
  {
    hide Quote;
    assert [Null, Bool(true), Bool(false)][1..] == [Bool(true), Bool(false)];
    assert [Bool(true), Bool(false)][1..] == [Bool(false)];
    assert PrintItems([Bool(true), Bool(false)]) == TRUE_TEXT + [COMMA] + FALSE_TEXT;
  }

  lemma {:induction false} RecordWritten()
    ensures Print(Obj([Member([97], Null)])) == Ascii("{\"a\":null}")
  {
    hide Quote;
    LetterWritten(97);
    assert PrintMembers([Member([97], Null)]) == [34, 97, 34, 58, 110, 117, 108, 108];
  }

  lemma {:induction false} LetterWritten(c: CodeUnit)
    requires 97 <= c < 123
    ensures Quote([c]) == [34, c, 34]
  {
    assert EscapeUnits([c]) == [c] + EscapeUnits([]);
  }
}
