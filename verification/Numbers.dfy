/** Number::toString of ECMA-262 (section 6.1.6.1.20) and its reading back.

    A finite double is identified with the sign, the shortest round-tripping
    decimal digits s and the point position n that the standard computes for it,
    so that the value is 0.s times ten to the n. */
module Numbers {
  import opened Wrappers
  import opened Text

  type Digit = c: CodeUnit | 48 <= c < 58 witness 48

  datatype Number = Number(negative: bool, digits: seq<Digit>, point: int)

  const CHAR_PLUS: CodeUnit := 43
  const CHAR_MINUS: CodeUnit := 45
  const CHAR_POINT: CodeUnit := 46
  const CHAR_ZERO: Digit := 48
  const CHAR_E: CodeUnit := 101

  const ZERO := Number(false, [], 0)

  predicate WellFormed(n: Number) {
    if n.digits == [] then n.point == 0 else Significant(n.digits)
  }

  /** Digits as the standard chooses them: no zero at either end. */
  predicate Significant(s: seq<Digit>) {
    s != [] && s[0] != CHAR_ZERO && s[|s| - 1] != CHAR_ZERO
  }

  /** JSON text keeps no sign on zero. */
  function DropNegativeZero(n: Number): Number {
    if n.digits == [] then ZERO else n
  }

  predicate StartsWithDigit(t: Text) { t != [] && 48 <= t[0] < 58 }

  function Zeros(n: nat): (z: seq<Digit>)
    ensures |z| == n
  {
    if n == 0 then [] else [CHAR_ZERO] + Zeros(n - 1)
  }

  // ---- decimal naturals ---------------------------------------------------

  function Decimal(n: nat): (ds: seq<Digit>)
    ensures ds != []
  {
    if n < 10 then [48 + n] else Decimal(n / 10) + [48 + n % 10]
  }

  function FromDecimal(ds: seq<Digit>): nat {
    if ds == [] then 0
    else
      var last: int := ds[|ds| - 1];
      10 * FromDecimal(ds[..|ds| - 1]) + (last - 48)
  }

  lemma {:induction false} FromDecimalOfDecimal(n: nat)
    ensures FromDecimal(Decimal(n)) == n
  {
    if n >= 10 {
      FromDecimalOfDecimal(n / 10);
      assert Decimal(n)[..|Decimal(n)| - 1] == Decimal(n / 10);
    } else {
      assert Decimal(n)[..0] == [];
    }
  }

  // ---- printing -----------------------------------------------------------

  function Exponent(e: int): Text {
    [CHAR_E, if e < 0 then CHAR_MINUS else CHAR_PLUS] + Decimal(if e < 0 then -e else e)
  }

  function PrintMagnitude(s: seq<Digit>, n: int): Text
    requires s != []
  {
    var k := |s|;
    if k <= n <= 21 then s + Zeros(n - k)
    else if 0 < n <= 21 then s[..n] + ([CHAR_POINT] + s[n..])
    else if -6 < n <= 0 then [CHAR_ZERO] + ([CHAR_POINT] + (Zeros(-n) + s))
    else if k == 1 then s + Exponent(n - 1)
    else s[..1] + ([CHAR_POINT] + s[1..] + Exponent(n - 1))
  }

  function Sign(negative: bool): Text { if negative then [CHAR_MINUS] else [] }

  function Print(x: Number): Text {
    if x.digits == [] then [CHAR_ZERO]
    else Sign(x.negative) + PrintMagnitude(x.digits, x.point)
  }

  // ---- reading ------------------------------------------------------------

  /** The longest prefix of decimal digits. */
  function TakeDigits(t: Text): (ds: seq<Digit>)
    ensures ds <= t
  {
    if StartsWithDigit(t) then [t[0]] + TakeDigits(t[1..]) else []
  }

  function TrimLeading(ds: seq<Digit>): seq<Digit> {
    if ds != [] && ds[0] == CHAR_ZERO then TrimLeading(ds[1..]) else ds
  }

  function TrimTrailing(ds: seq<Digit>): seq<Digit> {
    if ds != [] && ds[|ds| - 1] == CHAR_ZERO then TrimTrailing(ds[..|ds| - 1]) else ds
  }

  /** The number 0.ds times ten to the point, in its canonical digits. */
  function Canonical(negative: bool, ds: seq<Digit>, point: int): Number {
    var left := TrimLeading(ds);
    var both := TrimTrailing(left);
    if both == [] then Number(negative, [], 0)
    else Number(negative, both, point - (|ds| - |left|))
  }

  /** The fraction part of RFC 8259 section 6, if the text starts with one. */
  function ReadFraction(t: Text): (r: Option<(seq<Digit>, Text)>)
    ensures r.Some? ==> |r.value.1| <= |t|
  {
    if t == [] || t[0] != CHAR_POINT then Some(([], t))
    else
      var ds := TakeDigits(t[1..]);
      if ds == [] then None else Some((ds, t[1..][|ds|..]))
  }

  /** The exponent part of RFC 8259 section 6, if the text starts with one. */
  function ReadExponent(t: Text): (r: Option<(int, Text)>)
    ensures r.Some? ==> |r.value.1| <= |t|
  {
    if t == [] || (t[0] != CHAR_E && t[0] != 69) then Some((0, t))
    else
      var signed := 1 < |t| && (t[1] == CHAR_MINUS || t[1] == CHAR_PLUS);
      var minus := signed && t[1] == CHAR_MINUS;
      var u := if signed then t[2..] else t[1..];
      var ds := TakeDigits(u);
      if ds == [] then None
      else
        var e: int := FromDecimal(ds);
        Some((if minus then -e else e, u[|ds|..]))
  }

  function ReadUnsigned(negative: bool, u: Text): (r: Option<(Number, Text)>)
    ensures r.Some? ==> |r.value.1| < |u|
  {
    var whole := TakeDigits(u);
    if whole == [] || (|whole| > 1 && whole[0] == CHAR_ZERO) then None
    else
      match ReadFraction(u[|whole|..])
      case None => None
      case Some((fraction, afterFraction)) =>
        match ReadExponent(afterFraction)
        case None => None
        case Some((e, rest)) =>
          Some((Canonical(negative, whole + fraction, |whole| + e), rest))
  }

  /** A number of RFC 8259 section 6 at the front of the text, with what follows it. */
  function Read(t: Text): (r: Option<(Number, Text)>)
    ensures r.Some? ==> |r.value.1| < |t|
  {
    if t != [] && t[0] == CHAR_MINUS then ReadUnsigned(true, t[1..]) else ReadUnsigned(false, t)
  }

  // ---- reading a printed number gives the number back ---------------------

  /** What may follow a number in a JSON text: never a character of a number. */
  predicate EndsNumber(rest: Text) {
    !StartsWithDigit(rest) && (rest != [] ==> rest[0] !in {CHAR_POINT, CHAR_E, 69})
  }

  lemma {:induction false} TakeDigitsOfDigits(ds: seq<Digit>, rest: Text)
    requires !StartsWithDigit(rest)
    ensures TakeDigits(ds + rest) == ds
    ensures (ds + rest)[|ds|..] == rest
  {
    var t := ds + rest;
    if ds != [] {
      TakeDigitsOfDigits(ds[1..], rest);
      assert t[1..] == ds[1..] + rest;
    } else {
      assert t == rest;
    }
  }

  lemma {:induction false} TrimLeadingZeros(n: nat, ds: seq<Digit>)
    requires ds != [] && ds[0] != CHAR_ZERO
    ensures TrimLeading(Zeros(n) + ds) == ds
  {
    if n == 0 {
      assert Zeros(0) + ds == ds;
    } else {
      TrimLeadingZeros(n - 1, ds);
      assert (Zeros(n) + ds)[1..] == Zeros(n - 1) + ds;
    }
  }

  lemma {:induction false} ZerosFromTheEnd(n: nat)
    requires n > 0
    ensures Zeros(n) == Zeros(n - 1) + [CHAR_ZERO]
  {
    if n > 1 { ZerosFromTheEnd(n - 1); }
  }

  lemma {:induction false} TrimTrailingZeros(n: nat, ds: seq<Digit>)
    requires ds != [] && ds[|ds| - 1] != CHAR_ZERO
    ensures TrimTrailing(ds + Zeros(n)) == ds
  {
    if n == 0 {
      assert ds + Zeros(0) == ds;
    } else {
      ZerosFromTheEnd(n);
      TrimTrailingZeros(n - 1, ds);
      assert (ds + Zeros(n))[..|ds| + n - 1] == ds + Zeros(n - 1);
    }
  }

  lemma {:induction false} CanonicalPadded(negative: bool, before: nat, s: seq<Digit>, after: nat, point: int)
    requires Significant(s)
    ensures Canonical(negative, Zeros(before) + (s + Zeros(after)), point)
         == Number(negative, s, point - before)
  {
    TrimLeadingZeros(before, s + Zeros(after));
    TrimTrailingZeros(after, s);
  }

  lemma {:induction false} CanonicalPlain(negative: bool, s: seq<Digit>, point: int)
    requires Significant(s)
    ensures Canonical(negative, s, point) == Number(negative, s, point)
  {
    CanonicalPadded(negative, 0, s, 0, point);
    assert Zeros(0) + (s + Zeros(0)) == s;
  }

  lemma {:induction false} ReadExponentOfExponent(e: int, rest: Text)
    requires !StartsWithDigit(rest)
    ensures ReadExponent(Exponent(e) + rest) == Some((e, rest))
  {
    hide Decimal, FromDecimal, TakeDigits;
    var ds := Decimal(if e < 0 then -e else e);
    var t := Exponent(e) + rest;
    assert t[2..] == ds + rest;
    TakeDigitsOfDigits(ds, rest);
    FromDecimalOfDecimal(if e < 0 then -e else e);
  }

  lemma {:induction false} ReadFractionOfDigits(ds: seq<Digit>, rest: Text)
    requires ds != [] && !StartsWithDigit(rest)
    ensures ReadFraction([CHAR_POINT] + (ds + rest)) == Some((ds, rest))
  {
    var t := [CHAR_POINT] + (ds + rest);
    assert t[1..] == ds + rest;
    TakeDigitsOfDigits(ds, rest);
  }

  /** A text splits into the three parts of a number. */
  lemma {:induction false} ReadParts(negative: bool, whole: seq<Digit>, tail: Text, fraction: seq<Digit>,
                  middle: Text, e: int, rest: Text)
    requires whole != [] && (whole[0] == CHAR_ZERO ==> |whole| == 1)
    requires !StartsWithDigit(tail)
    requires ReadFraction(tail) == Some((fraction, middle))
    requires ReadExponent(middle) == Some((e, rest))
    ensures ReadUnsigned(negative, whole + tail)
         == Some((Canonical(negative, whole + fraction, |whole| + e), rest))
  {
    TakeDigitsOfDigits(whole, tail);
  }

  lemma {:induction false} NoMoreOfTheNumber(rest: Text)
    requires EndsNumber(rest)
    ensures ReadFraction(rest) == Some(([], rest)) && ReadExponent(rest) == Some((0, rest))
  {
  }

  lemma {:induction false} ReadWholeNumber(negative: bool, s: seq<Digit>, zeros: nat, rest: Text)
    requires Significant(s) && EndsNumber(rest)
    ensures ReadUnsigned(negative, s + Zeros(zeros) + rest)
         == Some((Number(negative, s, |s| + zeros), rest))
  {
    hide ReadUnsigned, Canonical, TakeDigits, TrimLeading, TrimTrailing;
    var whole := s + Zeros(zeros);
    NoMoreOfTheNumber(rest);
    ReadParts(negative, whole, rest, [], rest, 0, rest);
    assert Canonical(negative, whole + [], |whole|) == Number(negative, s, |s| + zeros) by {
      assert whole + [] == Zeros(0) + (s + Zeros(zeros));
      CanonicalPadded(negative, 0, s, zeros, |s| + zeros);
    }
  }

  lemma {:induction false} ReadDecimalNumber(negative: bool, whole: seq<Digit>, fraction: seq<Digit>, e: int,
                          middle: Text, rest: Text)
    requires whole != [] && (whole[0] == CHAR_ZERO ==> |whole| == 1)
    requires fraction != [] && !StartsWithDigit(middle)
    requires ReadExponent(middle) == Some((e, rest))
    ensures ReadUnsigned(negative, whole + ([CHAR_POINT] + (fraction + middle)))
         == Some((Canonical(negative, whole + fraction, |whole| + e), rest))
  {
    hide ReadUnsigned, Canonical, TakeDigits, TrimLeading, TrimTrailing;
    ReadFractionOfDigits(fraction, middle);
    ReadParts(negative, whole, [CHAR_POINT] + (fraction + middle), fraction, middle, e, rest);
  }

  lemma {:induction false} ReadInnerPoint(negative: bool, s: seq<Digit>, n: nat, rest: Text)
    requires Significant(s) && EndsNumber(rest)
    requires 0 < n < |s|
    ensures ReadUnsigned(negative, s[..n] + ([CHAR_POINT] + s[n..]) + rest)
         == Some((Number(negative, s, n), rest))
  {
    hide ReadUnsigned, Canonical, TakeDigits, TrimLeading, TrimTrailing;
    NoMoreOfTheNumber(rest);
    ReadDecimalNumber(negative, s[..n], s[n..], 0, rest, rest);
    assert s[..n] + ([CHAR_POINT] + s[n..]) + rest == s[..n] + ([CHAR_POINT] + (s[n..] + rest));
    assert s[..n] + s[n..] == s;
    CanonicalPlain(negative, s, n);
  }

  lemma {:induction false} ReadLeadingZero(negative: bool, s: seq<Digit>, zeros: nat, rest: Text)
    requires Significant(s) && EndsNumber(rest)
    ensures ReadUnsigned(negative, [CHAR_ZERO] + ([CHAR_POINT] + (Zeros(zeros) + s)) + rest)
         == Some((Number(negative, s, 0 - (zeros as int)), rest))
  {
    hide ReadUnsigned, Canonical, TakeDigits, TrimLeading, TrimTrailing;
    var whole: seq<Digit> := [CHAR_ZERO];
    var fraction := Zeros(zeros) + s;
    assert ReadExponent(rest) == Some((0, rest)) by { NoMoreOfTheNumber(rest); }
    ReadDecimalNumber(negative, whole, fraction, 0, rest, rest);
    assert whole + ([CHAR_POINT] + fraction) + rest == whole + ([CHAR_POINT] + (fraction + rest)) by {
      Regroup(whole, [CHAR_POINT], fraction, rest);
    }
    assert Canonical(negative, whole + fraction, 1) == Number(negative, s, 0 - (zeros as int)) by {
      CanonicalShifted(negative, s, zeros);
    }
  }

  lemma {:induction false} Regroup(a: Text, b: Text, c: Text, d: Text)
    ensures a + (b + c) + d == a + (b + (c + d))
  {
  }

  lemma {:induction false} CanonicalShifted(negative: bool, s: seq<Digit>, zeros: nat)
    requires Significant(s)
    ensures Canonical(negative, [CHAR_ZERO] + (Zeros(zeros) + s), 1)
         == Number(negative, s, 0 - (zeros as int))
  {
    CanonicalPadded(negative, zeros + 1, s, 0, 1);
    var zero: seq<Digit> := [CHAR_ZERO];
    assert Zeros(zeros + 1) == zero + Zeros(zeros);
    assert zero + (Zeros(zeros) + s) == Zeros(zeros + 1) + (s + Zeros(0));
  }

  lemma {:induction false} ExponentStarts(e: int, rest: Text)
    ensures !StartsWithDigit(Exponent(e) + rest) && (Exponent(e) + rest)[0] != CHAR_POINT
  {
  }

  lemma {:induction false} ReadOneDigitScientific(negative: bool, s: seq<Digit>, n: int, rest: Text)
    requires Significant(s) && |s| == 1 && EndsNumber(rest)
    ensures ReadUnsigned(negative, s + Exponent(n - 1) + rest)
         == Some((Number(negative, s, n), rest))
  {
    hide ReadUnsigned, ReadExponent, Exponent, Canonical, TakeDigits, TrimLeading, TrimTrailing;
    var exponent := Exponent(n - 1);
    var middle := exponent + rest;
    ReadExponentOfExponent(n - 1, rest);
    ExponentStarts(n - 1, rest);
    ReadParts(negative, s, middle, [], middle, n - 1, rest);
    assert s + exponent + rest == s + middle;
    assert s + [] == s;
    CanonicalPlain(negative, s, n);
  }

  lemma {:induction false} ReadScientific(negative: bool, s: seq<Digit>, n: int, rest: Text)
    requires Significant(s) && |s| > 1 && EndsNumber(rest)
    ensures ReadUnsigned(negative, s[..1] + ([CHAR_POINT] + s[1..] + Exponent(n - 1)) + rest)
         == Some((Number(negative, s, n), rest))
  {
    hide ReadUnsigned, ReadExponent, Exponent, Canonical, TakeDigits, TrimLeading, TrimTrailing;
    var exponent := Exponent(n - 1);
    var middle := exponent + rest;
    ReadExponentOfExponent(n - 1, rest);
    ExponentStarts(n - 1, rest);
    ReadDecimalNumber(negative, s[..1], s[1..], n - 1, middle, rest);
    assert s[..1] + ([CHAR_POINT] + s[1..] + exponent) + rest
        == s[..1] + ([CHAR_POINT] + (s[1..] + middle));
    assert s[..1] + s[1..] == s;
    CanonicalPlain(negative, s, n);
  }

  lemma {:induction false} ReadOfMagnitude(negative: bool, s: seq<Digit>, n: int, rest: Text)
    requires Significant(s) && EndsNumber(rest)
    ensures ReadUnsigned(negative, PrintMagnitude(s, n) + rest)
         == Some((Number(negative, s, n), rest))
  {
    hide ReadUnsigned;
    if |s| <= n <= 21 {
      ReadWholeNumber(negative, s, n - |s|, rest);
    } else if 0 < n <= 21 {
      ReadInnerPoint(negative, s, n, rest);
    } else if -6 < n <= 0 {
      ReadLeadingZero(negative, s, -n, rest);
    } else if |s| == 1 {
      ReadOneDigitScientific(negative, s, n, rest);
    } else {
      ReadScientific(negative, s, n, rest);
    }
  }

  lemma {:induction false} MagnitudeHasNoSign(s: seq<Digit>, n: int)
    requires s != []
    ensures PrintMagnitude(s, n) != [] && PrintMagnitude(s, n)[0] != CHAR_MINUS
  {
  }

  /** Reading a printed number gives it back, but for the sign of zero. */
  lemma {:induction false} ReadOfPrint(x: Number, rest: Text)
    requires WellFormed(x) && EndsNumber(rest)
    ensures Read(Print(x) + rest) == Some((DropNegativeZero(x), rest))
  {
    if x.digits == [] {
      var zero: seq<Digit> := [CHAR_ZERO];
      NoMoreOfTheNumber(rest);
      ReadParts(false, zero, rest, [], rest, 0, rest);
      assert zero + [] == zero;
      assert TrimLeading(zero) == [];
      assert TakeDigits(zero + rest) == zero by { TakeDigitsOfDigits(zero, rest); }
    } else {
      var magnitude := PrintMagnitude(x.digits, x.point) + rest;
      assert Print(x) + rest == Sign(x.negative) + magnitude;
      ReadOfMagnitude(x.negative, x.digits, x.point, rest);
      MagnitudeHasNoSign(x.digits, x.point);
      if x.negative {
        assert (Print(x) + rest)[1..] == magnitude;
      } else {
        assert Print(x) + rest == magnitude;
      }
    }
  }

  // ---- which of the texts of a number is printed ------------------------------------------------

  lemma {:induction false} TrimmedIsShorter(ds: seq<Digit>)
    ensures |TrimLeading(ds)| <= |ds| && |TrimTrailing(ds)| <= |ds|
    decreases |ds|
  {
    if ds != [] {
      TrimmedIsShorter(ds[1..]);
      TrimmedIsShorter(ds[..|ds| - 1]);
    }
  }

  predicate Unscaled(t: Text) { CHAR_E !in t && 69 !in t }

  /** Where the value is at least 1e-6 and below 1e21 there is no exponent, elsewhere there is one. */
  lemma {:induction false} ExponentByRange(x: Number)
    requires WellFormed(x)
    ensures Unscaled(Print(x)) <==> x.digits == [] || -6 < x.point <= 21
  {
    if x.digits != [] && !(-6 < x.point <= 21) { assert CHAR_E in Exponent(x.point - 1); }
  }

  /** Without an exponent no text of the number is shorter than the printed one. */
  lemma {:induction false} ShortestDecimal(x: Number, t: Text)
    requires WellFormed(x) && x.digits != [] && -6 < x.point <= 21
    requires Unscaled(t) && Read(t) == Some((x, []))
    ensures |Print(x)| <= |t|
  {
    hide ReadFraction, ReadExponent, TakeDigits;
    var u := if t[0] == CHAR_MINUS then t[1..] else t;
    assert ReadUnsigned(x.negative, u) == Some((x, []));
    assert forall c :: c in u ==> c in t;
    DecimalParts(x, u);
    assert |PrintMagnitude(x.digits, x.point)| <= |u|;
  }

  lemma {:induction false} DecimalParts(x: Number, u: Text)
    requires x.digits != [] && -6 < x.point <= 21 && Unscaled(u) && ReadUnsigned(x.negative, u) == Some((x, []))
    ensures |PrintMagnitude(x.digits, x.point)| <= |u|
  {
    hide ReadExponent, TakeDigits, ReadFraction, TrimLeading, TrimTrailing;
    var whole := TakeDigits(u);
    var tail := u[|whole|..];
    var (fraction, after) := ReadFraction(tail).value;
    assert forall c :: c in tail ==> c in u;
    NoExponent(tail);
    var ds := whole + fraction;
    assert Canonical(x.negative, ds, |whole|) == x;
    TrimmedIsShorter(ds);
    TrimmedIsShorter(TrimLeading(ds));
  }

  lemma {:induction false} NoExponent(tail: Text)
    requires Unscaled(tail) && ReadFraction(tail).Some?
    requires ReadExponent(ReadFraction(tail).value.1).Some? && ReadExponent(ReadFraction(tail).value.1).value.1 == []
    ensures
      var (fraction, after) := ReadFraction(tail).value;
      && ReadExponent(after).value.0 == 0 && after == []
      && |tail| == |fraction| + if fraction == [] then 0 else 1
  {
    hide TakeDigits;
    var (fraction, after) := ReadFraction(tail).value;
    if tail != [] && tail[0] == CHAR_POINT {
      var rest := tail[1..];
      assert after == rest[|fraction|..];
      forall c | c in after ensures c in tail {}
    }
  }

  /** Something after a mark, if there is something. */
  function Behind(mark: CodeUnit, t: Text): Text { if t == [] then [] else [mark] + t }

  /** With an exponent there is one digit, a point before any others, and the exponent with its sign and
      without a leading zero. */
  lemma {:induction false} ExponentForm(x: Number) returns (e: seq<Digit>)
    requires WellFormed(x) && x.digits != [] && !(-6 < x.point <= 21)
    ensures Print(x) == Sign(x.negative) + (x.digits[..1] + Behind(46, x.digits[1..]))
                        + [101, if x.point < 1 then 45 else 43] + e
    ensures e != [] && e[0] != 48 && FromDecimal(e) == if x.point < 1 then 1 - x.point else x.point - 1
  {
    hide Decimal, FromDecimal;
    var n: nat := if x.point < 1 then 1 - x.point else x.point - 1;
    e := Decimal(n);
    FromDecimalOfDecimal(n);
    NoLeadingZero(n);
    var s, sign := x.digits, Sign(x.negative);
    var mark: Text := [101, if x.point < 1 then 45 else 43];
    assert Exponent(x.point - 1) == mark + e;
    var mantissa: Text := s[..1] + Behind(46, s[1..]);
    RegroupExponent(sign, mantissa, mark, e);
    if |s| == 1 {
      assert mantissa == s;
    } else {
      assert s[..1] + ([CHAR_POINT] + s[1..] + Exponent(x.point - 1)) == mantissa + (mark + e);
    }
  }

  lemma {:induction false} RegroupExponent(sign: Text, mantissa: Text, mark: Text, e: Text)
    ensures sign + (mantissa + (mark + e)) == sign + mantissa + mark + e
  {
  }

  lemma {:induction false} NoLeadingZero(n: nat)
    requires n > 0
    ensures Decimal(n)[0] != CHAR_ZERO
  {
    if n >= 10 { NoLeadingZero(n / 10); }
  }

  /** The signs themselves. */
  lemma {:induction false} DecimalWritten()
    ensures Print(Number(true, [49, 50], 1)) == Ascii("-1.2")
  {
    hide Zeros;
  }

  lemma {:induction false} SmallWritten()
    ensures Print(Number(false, [53], -2)) == Ascii("0.005")
  {
    assert Zeros(2) == [48, 48];
  }

  lemma {:induction false} ScaledWritten()
    ensures Print(Number(false, [53], -6)) == Ascii("5e-7")
  {
    hide Zeros;
    assert Decimal(7) == [55];
  }
}
