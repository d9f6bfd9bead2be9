/** JSON numbers: the decimal layout of ECMAScript `Number::toString` (which `JSON.stringify`
    uses) and the number grammar of section 6 of RFC 8259.

    A finite non-zero double is represented by the shortest decimal that denotes it,
    0.d1d2...dk * 10^point; finding those digits is the engine's job and is not modelled. */
module JsonNumber {
  import opened Wrappers
  import opened JsonString

  type Digit = d: int | 0 <= d < 10

  datatype Decimal =
    | NonFinite
    | Zero(negative: bool)
    | Finite(negative: bool, digits: seq<Digit>, point: int)

  type Number = n: Decimal |
    n.Finite? ==> n.digits != [] && n.digits[0] != 0 && n.digits[|n.digits| - 1] != 0
    witness Zero(false)

  const MINUS: CodeUnit := 45
  const PLUS: CodeUnit := 43
  const DOT: CodeUnit := 46
  const LOWER_E: CodeUnit := 101
  const UPPER_E: CodeUnit := 69

  function DigitChar(d: Digit): CodeUnit { (d as int) + 48 }

  function Chars(ds: seq<Digit>): (t: Text)
    ensures |t| == |ds| && forall i :: 0 <= i < |ds| ==> t[i] == DigitChar(ds[i])
  {
    seq(|ds|, i requires 0 <= i < |ds| => DigitChar(ds[i]))
  }

  function Zeros(n: nat): seq<Digit> { seq(n, _ => 0) }

  function DecimalDigits(n: nat): (ds: seq<Digit>)
    ensures ds != []
  {
    if n < 10 then [n] else DecimalDigits(n / 10) + [n % 10]
  }

  function ExponentText(e: int): Text {
    [LOWER_E, if e < 0 then MINUS else PLUS] + Chars(DecimalDigits(if e < 0 then -e else e))
  }

  /** The digits of a positive number, laid out by the magnitude of its decimal point. */
  function Layout(ds: seq<Digit>, point: int): Text
    requires ds != []
  {
    if |ds| <= point <= 21 then Chars(ds + Zeros(point - |ds|))
    else if 0 < point <= 21 then Chars(ds[..point]) + ([DOT] + Chars(ds[point..]))
    else if -6 < point <= 0 then Chars([0]) + ([DOT] + Chars(Zeros(-point) + ds))
    else if |ds| == 1 then Chars(ds) + ExponentText(point - 1)
    else Chars(ds[..1]) + ([DOT] + (Chars(ds[1..]) + ExponentText(point - 1)))
  }

  /** `JSON.stringify` of a finite number; it drops the sign of zero. */
  function PrintNumber(n: Number): Text
    requires !n.NonFinite?
  {
    match n
    case Zero(_) => Chars([0])
    case Finite(negative, ds, point) => (if negative then [MINUS] else []) + Layout(ds, point)
  }

  /* ---- the reading side ---- */

  predicate IsDigit(u: CodeUnit) { 48 <= u <= 57 }

  function ReadDigits(t: Text): (r: (seq<Digit>, Text))
    ensures |r.0| + |r.1| == |t|
  {
    if t == [] || !IsDigit(t[0]) then ([], t)
    else var more := ReadDigits(t[1..]); ([t[0] - 48] + more.0, more.1)
  }

  function NatOf(ds: seq<Digit>): nat {
    if ds == [] then 0 else NatOf(ds[..|ds| - 1]) * 10 + ds[|ds| - 1]
  }

  /** An optional fraction; None when a point is not followed by a digit. */
  function ReadFraction(t: Text): (r: Option<(seq<Digit>, Text)>)
    ensures r.Some? ==> |r.value.1| <= |t|
  {
    if t == [] || t[0] != DOT then Some(([], t))
    else var ds := ReadDigits(t[1..]); if ds.0 == [] then None else Some(ds)
  }

  /** An optional exponent; None when it has no digit. */
  function ReadExponent(t: Text): (r: Option<(int, Text)>)
    ensures r.Some? ==> |r.value.1| <= |t|
  {
    if t == [] || (t[0] != LOWER_E && t[0] != UPPER_E) then Some((0, t))
    else
      var signed := |t| > 1 && (t[1] == MINUS || t[1] == PLUS);
      var ds := ReadDigits(if signed then t[2..] else t[1..]);
      if ds.0 == [] then None
      else
        var e: int := NatOf(ds.0);
        Some((if signed && t[1] == MINUS then -e else e, ds.1))
  }

  function StripTrailing(ds: seq<Digit>): (r: seq<Digit>)
    ensures ds != [] && ds[0] != 0 ==> r != [] && r[0] == ds[0]
    ensures r != [] ==> r[|r| - 1] != 0
  {
    if ds != [] && ds[|ds| - 1] == 0 then StripTrailing(ds[..|ds| - 1]) else ds
  }

  /** The number 0.ds * 10^point, in shortest form. */
  function Normalise(negative: bool, ds: seq<Digit>, point: int): Number
    decreases |ds|
  {
    if ds == [] then Zero(negative)
    else if ds[0] == 0 then Normalise(negative, ds[1..], point - 1)
    else Finite(negative, StripTrailing(ds), point)
  }

  function ReadUnsigned(negative: bool, t: Text): (r: Option<(Number, Text)>)
    ensures r.Some? ==> |r.value.1| < |t|
  {
    var whole := ReadDigits(t);
    if whole.0 == [] || (whole.0[0] == 0 && |whole.0| > 1) then None
    else
      var fraction := ReadFraction(whole.1);
      if fraction.None? then None
      else
        var exponent := ReadExponent(fraction.value.1);
        if exponent.None? then None
        else Some((Normalise(negative, whole.0 + fraction.value.0, |whole.0| + exponent.value.0), exponent.value.1))
  }

  function ReadNumber(t: Text): (r: Option<(Number, Text)>)
    ensures r.Some? ==> |r.value.1| < |t|
  {
    if t != [] && t[0] == MINUS then ReadUnsigned(true, t[1..]) else ReadUnsigned(false, t)
  }

  /** Text that cannot extend a number. */
  predicate EndsNumber(rest: Text) {
    rest == [] || (!IsDigit(rest[0]) && rest[0] !in {DOT, LOWER_E, UPPER_E})
  }

  lemma {:induction false} DigitsRoundTrip(ds: seq<Digit>, rest: Text)
    requires rest == [] || !IsDigit(rest[0])
    ensures ReadDigits(Chars(ds) + rest) == (ds, rest)
  {
    if ds == [] {
      assert Chars(ds) + rest == rest;
    } else {
      DigitsRoundTrip(ds[1..], rest);
      assert (Chars(ds) + rest)[1..] == Chars(ds[1..]) + rest;
      assert ds == [ds[0]] + ds[1..];
    }
  }

  lemma {:induction false} NatRoundTrip(n: nat)
    ensures NatOf(DecimalDigits(n)) == n
  {
    if n < 10 {
      assert DecimalDigits(n)[..0] == [];
    } else {
      NatRoundTrip(n / 10);
      var ds := DecimalDigits(n);
      assert ds[..|ds| - 1] == DecimalDigits(n / 10);
    }
  }

  lemma {:induction false} ExponentRoundTrip(e: int, rest: Text)
    requires EndsNumber(rest)
    ensures ReadExponent(ExponentText(e) + rest) == Some((e, rest))
  {
    hide NatOf;
    hide ReadDigits;
    hide DecimalDigits;
    var m: nat := if e < 0 then -e else e;
    var t := ExponentText(e) + rest;
    assert t[2..] == Chars(DecimalDigits(m)) + rest;
    DigitsRoundTrip(DecimalDigits(m), rest);
    NatRoundTrip(m);
  }

  lemma {:induction false} StripZeros(ds: seq<Digit>, n: nat)
    requires ds != [] && ds[|ds| - 1] != 0
    ensures StripTrailing(ds + Zeros(n)) == ds
  {
    if n == 0 {
      assert ds + Zeros(0) == ds;
    } else {
      var all := ds + Zeros(n);
      assert all[..|all| - 1] == ds + Zeros(n - 1);
      StripZeros(ds, n - 1);
    }
  }

  lemma {:induction false} NormaliseZeros(negative: bool, n: nat, ds: seq<Digit>, point: int)
    ensures Normalise(negative, Zeros(n) + ds, point) == Normalise(negative, ds, point - n)
  {
    if n == 0 {
      assert Zeros(0) + ds == ds;
    } else {
      assert (Zeros(n) + ds)[1..] == Zeros(n - 1) + ds;
      NormaliseZeros(negative, n - 1, ds, point - 1);
    }
  }

  /** Integers up to 21 digits: the digits padded with zeros. */
  lemma {:induction false} IntegerRoundTrip(negative: bool, ds: seq<Digit>, point: int, rest: Text)
    requires ds != [] && ds[0] != 0 && ds[|ds| - 1] != 0 && EndsNumber(rest) && |ds| <= point
    ensures ReadUnsigned(negative, Chars(ds + Zeros(point - |ds|)) + rest) == Some((Finite(negative, ds, point), rest))
  {
    var all := ds + Zeros(point - |ds|);
    DigitsRoundTrip(all, rest);
    StripZeros(ds, point - |ds|);
    assert all + [] == all;
  }

  lemma {:induction false} FractionReads(frac: seq<Digit>, tail: Text)
    requires frac != [] && (tail == [] || !IsDigit(tail[0]))
    ensures ReadFraction([DOT] + (Chars(frac) + tail)) == Some((frac, tail))
  {
    assert ([DOT] + (Chars(frac) + tail))[1..] == Chars(frac) + tail;
    DigitsRoundTrip(frac, tail);
  }

  /** A whole part, a fraction and an exponent text, read back together. */
  lemma {:induction false} FractionRoundTrip(negative: bool, whole: seq<Digit>, frac: seq<Digit>, tail: Text, e: int,
                                             rest: Text)
    requires whole != [] && (whole[0] != 0 || |whole| == 1) && frac != []
    requires tail == [] || !IsDigit(tail[0])
    requires ReadExponent(tail) == Some((e, rest))
    ensures ReadUnsigned(negative, Chars(whole) + ([DOT] + (Chars(frac) + tail)))
            == Some((Normalise(negative, whole + frac, |whole| + e), rest))
  {
    DigitsRoundTrip(whole, [DOT] + (Chars(frac) + tail));
    FractionReads(frac, tail);
  }

  lemma {:induction false} Assoc(a: Text, b: Text, c: Text)
    ensures (a + b) + c == a + (b + c)
  {
  }

  lemma {:induction false} AssocDot(a: Text, b: Text, c: Text, rest: Text)
    ensures (a + ([DOT] + (b + c))) + rest == a + ([DOT] + (b + (c + rest)))
  {
    Assoc(a, [DOT] + (b + c), rest);
    Assoc([DOT], b + c, rest);
    Assoc(b, c, rest);
  }

  lemma {:induction false} ShortIsNormal(negative: bool, ds: seq<Digit>, point: int)
    requires ds != [] && ds[0] != 0 && ds[|ds| - 1] != 0
    ensures Normalise(negative, ds, point) == Finite(negative, ds, point)
  {
  }

  lemma {:induction false} SmallIsNormal(negative: bool, ds: seq<Digit>, point: int)
    requires ds != [] && ds[0] != 0 && ds[|ds| - 1] != 0 && point <= 0
    ensures Normalise(negative, [0] + (Zeros(-point) + ds), 1) == Finite(negative, ds, point)
  {
    assert [0] + (Zeros(-point) + ds) == Zeros(1 - point) + ds;
    NormaliseZeros(negative, 1 - point, ds, 1);
    ShortIsNormal(negative, ds, point);
  }

  lemma {:induction false} SmallRoundTrip(negative: bool, frac: seq<Digit>, rest: Text)
    requires frac != [] && EndsNumber(rest)
    ensures ReadUnsigned(negative, (Chars([0]) + ([DOT] + Chars(frac))) + rest)
            == Some((Normalise(negative, [0] + frac, 1), rest))
  {
    Assoc(Chars([0]), [DOT] + Chars(frac), rest);
    Assoc([DOT], Chars(frac), rest);
    FractionRoundTrip(negative, [0], frac, rest, 0, rest);
  }

  lemma {:induction false} SmallLayout(negative: bool, ds: seq<Digit>, point: int, rest: Text)
    requires ds != [] && ds[0] != 0 && ds[|ds| - 1] != 0 && EndsNumber(rest) && -6 < point <= 0
    ensures ReadUnsigned(negative, Layout(ds, point) + rest) == Some((Finite(negative, ds, point), rest))
  {
    SmallRoundTrip(negative, Zeros(-point) + ds, rest);
    SmallIsNormal(negative, ds, point);
  }

  lemma {:induction false} PointedRoundTrip(negative: bool, whole: seq<Digit>, frac: seq<Digit>, tail: Text, e: int,
                                            rest: Text)
    requires whole != [] && frac != [] && whole[0] != 0 && frac[|frac| - 1] != 0
    requires (tail == [] || !IsDigit(tail[0])) && ReadExponent(tail) == Some((e, rest))
    ensures ReadUnsigned(negative, Chars(whole) + ([DOT] + (Chars(frac) + tail)))
            == Some((Finite(negative, whole + frac, |whole| + e), rest))
  {
    FractionRoundTrip(negative, whole, frac, tail, e, rest);
    ShortIsNormal(negative, whole + frac, |whole| + e);
  }

  lemma {:induction false} PointedLayout(negative: bool, ds: seq<Digit>, point: int, rest: Text)
    requires ds != [] && ds[0] != 0 && ds[|ds| - 1] != 0 && EndsNumber(rest) && 0 < point <= 21 && point < |ds|
    ensures ReadUnsigned(negative, Layout(ds, point) + rest) == Some((Finite(negative, ds, point), rest))
  {
    hide ReadUnsigned;
    hide Chars;
    var whole, frac := ds[..point], ds[point..];
    PointedRoundTrip(negative, whole, frac, rest, 0, rest);
    assert whole + frac == ds;
    Assoc(Chars(whole), [DOT] + Chars(frac), rest);
    Assoc([DOT], Chars(frac), rest);
  }

  lemma {:induction false} ScientificReads(negative: bool, whole: seq<Digit>, frac: seq<Digit>, x: int, rest: Text)
    requires whole != [] && frac != [] && whole[0] != 0 && frac[|frac| - 1] != 0 && EndsNumber(rest)
    ensures ReadUnsigned(negative, (Chars(whole) + ([DOT] + (Chars(frac) + ExponentText(x)))) + rest)
            == Some((Finite(negative, whole + frac, |whole| + x), rest))
  {
    var e := ExponentText(x);
    assert !IsDigit((e + rest)[0]);
    ExponentRoundTrip(x, rest);
    PointedRoundTrip(negative, whole, frac, e + rest, x, rest);
    AssocDot(Chars(whole), Chars(frac), e, rest);
  }

  lemma {:induction false} ScientificLayout(negative: bool, ds: seq<Digit>, point: int, rest: Text)
    requires |ds| > 1 && ds[0] != 0 && ds[|ds| - 1] != 0 && EndsNumber(rest) && !(-6 < point <= 21)
    ensures ReadUnsigned(negative, Layout(ds, point) + rest) == Some((Finite(negative, ds, point), rest))
  {
    hide ReadUnsigned;
    hide ExponentText;
    hide Chars;
    ScientificReads(negative, ds[..1], ds[1..], point - 1, rest);
    assert ds[..1] + ds[1..] == ds;
  }

  lemma {:induction false} OneDigitLayout(negative: bool, d: Digit, point: int, rest: Text)
    requires d != 0 && EndsNumber(rest) && !(-6 < point <= 21)
    ensures ReadUnsigned(negative, Layout([d], point) + rest) == Some((Finite(negative, [d], point), rest))
  {
    var e := ExponentText(point - 1);
    ExponentRoundTrip(point - 1, rest);
    Assoc(Chars([d]), e, rest);
    DigitsRoundTrip([d], e + rest);
    assert [d] + [] == [d];
  }

  lemma {:induction false} LayoutRoundTrip(negative: bool, ds: seq<Digit>, point: int, rest: Text)
    requires ds != [] && ds[0] != 0 && ds[|ds| - 1] != 0 && EndsNumber(rest)
    ensures ReadUnsigned(negative, Layout(ds, point) + rest) == Some((Finite(negative, ds, point), rest))
  {
    if |ds| <= point <= 21 {
      IntegerRoundTrip(negative, ds, point, rest);
    } else if 0 < point <= 21 {
      PointedLayout(negative, ds, point, rest);
    } else if -6 < point <= 0 {
      SmallLayout(negative, ds, point, rest);
    } else if |ds| == 1 {
      assert ds == [ds[0]];
      OneDigitLayout(negative, ds[0], point, rest);
    } else {
      ScientificLayout(negative, ds, point, rest);
    }
  }

  lemma {:induction false} ZeroReads(rest: Text)
    requires EndsNumber(rest)
    ensures ReadNumber(Chars([0]) + rest) == Some((Zero(false), rest))
  {
    DigitsRoundTrip([0], rest);
    assert [0] + [] == Zeros(1) + [];
    NormaliseZeros(false, 1, [], 1);
  }

  /** Reading a printed number gives the number back, with zero unsigned. */
  lemma {:induction false} NumberRoundTrip(n: Number, rest: Text)
    requires !n.NonFinite? && EndsNumber(rest)
    ensures ReadNumber(PrintNumber(n) + rest) == Some((if n.Zero? then Zero(false) else n, rest))
  {
    hide ReadUnsigned;
    hide Layout;
    if n.Zero? {
      ZeroReads(rest);
    } else {
      var body := Layout(n.digits, n.point);
      LayoutRoundTrip(n.negative, n.digits, n.point, rest);
      LayoutStartsWithDigit(n.digits, n.point);
      var t := PrintNumber(n) + rest;
      if n.negative {
        assert t[1..] == body + rest;
      } else {
        assert t == body + rest;
      }
    }
  }

  lemma {:induction false} LayoutStartsWithDigit(ds: seq<Digit>, point: int)
    requires ds != []
    ensures Layout(ds, point) != [] && IsDigit(Layout(ds, point)[0])
  {
  }

  /** A number below 10^-6 or from 10^21 on is written with an exponent, any other without; and a point
      is written exactly where digits follow it. */
  lemma {:induction false} LayoutForm(ds: seq<Digit>, point: int)
    requires ds != []
    ensures 101 in Layout(ds, point) <==> point <= -6 || point > 21
    ensures 46 in Layout(ds, point) <==> if -6 < point <= 21 then point < |ds| else |ds| > 1
  {
    var t := Layout(ds, point);
    if !(-6 < point <= 21) {
      assert t[if |ds| == 1 then 1 else |ds| + 1] == 101;
      if |ds| > 1 { assert t[1] == 46; }
    } else if 0 < point < |ds| {
      assert t[point] == 46;
    } else if point <= 0 {
      assert t[1] == 46;
    }
  }

  lemma {:induction false} CharsAreWellFormed(ds: seq<Digit>)
    ensures WellFormed(Chars(ds))
  {
    PlainIsWellFormed(Chars(ds));
  }

  lemma {:induction false} PointedIsWellFormed(a: seq<Digit>, b: Text)
    requires WellFormed(b)
    ensures WellFormed(Chars(a) + ([DOT] + b))
  {
    CharsAreWellFormed(a);
    assert ([DOT] + b)[1..] == b;
    WellFormedAppend(Chars(a), [DOT] + b);
  }

  lemma {:induction false} LayoutIsWellFormed(ds: seq<Digit>, point: int)
    requires ds != []
    ensures WellFormed(Layout(ds, point))
  {
    var e := ExponentText(point - 1);
    PlainIsWellFormed(e);
    if |ds| <= point <= 21 {
      CharsAreWellFormed(ds + Zeros(point - |ds|));
    } else if 0 < point <= 21 {
      CharsAreWellFormed(ds[point..]);
      PointedIsWellFormed(ds[..point], Chars(ds[point..]));
    } else if -6 < point <= 0 {
      CharsAreWellFormed(Zeros(-point) + ds);
      PointedIsWellFormed([0], Chars(Zeros(-point) + ds));
    } else if |ds| == 1 {
      CharsAreWellFormed(ds);
      WellFormedAppend(Chars(ds), e);
    } else {
      CharsAreWellFormed(ds[1..]);
      WellFormedAppend(Chars(ds[1..]), e);
      PointedIsWellFormed(ds[..1], Chars(ds[1..]) + e);
    }
  }

  lemma {:induction false} PrintedNumberIsWellFormed(n: Number)
    requires !n.NonFinite?
    ensures WellFormed(PrintNumber(n))
  {
    if n.Finite? {
      LayoutIsWellFormed(n.digits, n.point);
      WellFormedAppend(if n.negative then [MINUS] else [], Layout(n.digits, n.point));
    }
  }

  lemma {:induction false} PrintedNumberStart(n: Number)
    requires !n.NonFinite?
    ensures PrintNumber(n) != [] && (IsDigit(PrintNumber(n)[0]) || PrintNumber(n)[0] == MINUS)
  {
    if n.Finite? { LayoutStartsWithDigit(n.digits, n.point); }
  }
}
