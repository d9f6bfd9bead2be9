/** JSON strings: the escaping of `JSON.stringify` (well-formed since ECMAScript 2019)
    and the string grammar of section 7 of RFC 8259, on UTF-16 code units. */
module JsonString {
  import opened Wrappers

  type CodeUnit = u: int | 0 <= u < 0x10000
  type Text = seq<CodeUnit>

  const QUOTE: CodeUnit := 34
  const BACKSLASH: CodeUnit := 92
  const LOWER_U: CodeUnit := 117

  predicate High(u: CodeUnit) { 0xD800 <= u < 0xDC00 }
  predicate Low(u: CodeUnit) { 0xDC00 <= u < 0xE000 }
  predicate Surrogate(u: CodeUnit) { High(u) || Low(u) }

  function HexDigit(d: int): (c: CodeUnit)
    requires 0 <= d < 16
  {
    if d < 10 then 48 + d else 87 + d
  }

  function HexEscape(u: CodeUnit): Text {
    [BACKSLASH, LOWER_U, HexDigit(u / 4096), HexDigit(u / 256 % 16), HexDigit(u / 16 % 16), HexDigit(u % 16)]
  }

  /** The letter after the backslash for the units that have a short escape. */
  function ShortEscape(u: CodeUnit): Option<CodeUnit> {
    if u == 8 then Some(98) else if u == 9 then Some(116) else if u == 10 then Some(110)
    else if u == 12 then Some(102) else if u == 13 then Some(114)
    else if u == QUOTE || u == BACKSLASH then Some(u) else None
  }

  function EscapeUnit(u: CodeUnit): Text {
    if ShortEscape(u).Some? then [BACKSLASH, ShortEscape(u).value]
    else if u < 32 || Surrogate(u) then HexEscape(u)
    else [u]
  }

  function Escape(s: Text): Text {
    if s == [] then []
    else if |s| > 1 && High(s[0]) && Low(s[1]) then s[..2] + Escape(s[2..])
    else EscapeUnit(s[0]) + Escape(s[1..])
  }

  function Quoted(s: Text): Text { [QUOTE] + Escape(s) + [QUOTE] }

  /** How a unit on its own is written: as itself, unless it is a control character, a quotation mark,
      a backslash or an unpaired surrogate; as a backslash and one of b, t, n, f, r, the quotation mark
      or the backslash, where there is such an escape; and otherwise as u and four hexadecimal digits in
      lower case. */
  lemma {:induction false} UnitSpelling(u: CodeUnit)
    ensures var t := Escape([u]);
            && (t == [u] <==> u >= 32 && u != 34 && u != 92 && !(0xD800 <= u < 0xE000))
            && (t != [u] ==> |t| >= 2 && t[0] == 92)
            && (|t| == 2 <==> u in {8, 9, 10, 12, 13, 34, 92})
            && (|t| == 2 ==> t[1] in {98, 116, 110, 102, 114, 34, 92})
            && (t != [u] && |t| != 2 ==>
                  && |t| == 6 && t[1] == 117
                  && forall i :: 2 <= i < 6 ==> 48 <= t[i] <= 57 || 97 <= t[i] <= 102)
  {
    assert [u][1..] == [];
    assert Escape([u]) == EscapeUnit(u) + Escape([]);
  }

  /** A string is written unit by unit, except that a surrogate pair is written as it is. */
  lemma {:induction false} EscapeSplits(a: Text, b: Text)
    requires a == [] || b == [] || !(High(a[|a| - 1]) && Low(b[0]))
    ensures Escape(a + b) == Escape(a) + Escape(b)
    decreases |a|
  {
    hide Escape;
    hide EscapeUnit;
    hide High;
    hide Low;
    if a == [] {
      assert a + b == b && Escape([]) == [] by { EscapesNothing(); }
      assert Escape(a) + Escape(b) == Escape(b);
    } else {
      EscapeStep(a);
      EscapeStep(a + b);
      if Paired(a) {
        assert (a + b)[2..] == a[2..] + b && (a + b)[..2] == a[..2];
        EscapeSplits(a[2..], b);
        assert (a[..2] + Escape(a[2..])) + Escape(b) == a[..2] + (Escape(a[2..]) + Escape(b));
      } else {
        assert (a + b)[1..] == a[1..] + b && !Paired(a + b);
        EscapeSplits(a[1..], b);
        var unit := EscapeUnit(a[0]);
        assert (unit + Escape(a[1..])) + Escape(b) == unit + (Escape(a[1..]) + Escape(b));
      }
    }
  }

  predicate Paired(s: Text) { |s| > 1 && High(s[0]) && Low(s[1]) }

  lemma {:induction false} EscapesNothing()
    ensures Escape([]) == []
  {
  }

  lemma {:induction false} EscapeStep(s: Text)
    requires s != []
    ensures Escape(s) == if Paired(s) then s[..2] + Escape(s[2..]) else EscapeUnit(s[0]) + Escape(s[1..])
  {
  }

  lemma {:induction false} PairSpelling(high: CodeUnit, low: CodeUnit)
    requires 0xD800 <= high < 0xDC00 <= low < 0xE000
    ensures Escape([high, low]) == [high, low]
  {
    assert [high, low][2..] == [] && [high, low][..2] == [high, low];
  }

  /* ---- the reading side ---- */

  function HexValue(c: CodeUnit): (r: Option<int>)
    ensures r.Some? ==> 0 <= r.value < 16
  {
    if 48 <= c <= 57 then Some(c - 48)
    else if 97 <= c <= 102 then Some(c - 87)
    else if 65 <= c <= 70 then Some(c - 55)
    else None
  }

  function ReadHex(t: Text): (r: Option<CodeUnit>)
    requires |t| >= 4
    ensures r.Some? ==> forall i :: 0 <= i < 4 ==> HexValue(t[i]).Some?
  {
    var a, b, c, d := HexValue(t[0]), HexValue(t[1]), HexValue(t[2]), HexValue(t[3]);
    if a.Some? && b.Some? && c.Some? && d.Some?
    then Some(a.value * 4096 + b.value * 256 + c.value * 16 + d.value)
    else None
  }

  function ShortUnescape(c: CodeUnit): Option<CodeUnit> {
    if c == 98 then Some(8) else if c == 116 then Some(9) else if c == 110 then Some(10)
    else if c == 102 then Some(12) else if c == 114 then Some(13)
    else if c == QUOTE || c == BACKSLASH || c == 47 then Some(c) else None
  }

  /** One character of a string body, with the text after it. */
  function ReadUnit(t: Text): (r: Option<(CodeUnit, Text)>)
    ensures r.Some? ==> |r.value.1| < |t|
  {
    if t == [] || t[0] < 32 || t[0] == QUOTE then None
    else if t[0] != BACKSLASH then Some((t[0], t[1..]))
    else if |t| < 2 then None
    else if t[1] == LOWER_U then
      if |t| < 6 || ReadHex(t[2..]).None? then None else Some((ReadHex(t[2..]).value, t[6..]))
    else if ShortUnescape(t[1]).Some? then Some((ShortUnescape(t[1]).value, t[2..]))
    else None
  }

  /** A string body up to and including its closing quotation mark. */
  function ReadBody(t: Text): (r: Option<(Text, Text)>)
    ensures r.Some? ==> |r.value.1| < |t|
    decreases |t|
  {
    if t == [] then None
    else if t[0] == QUOTE then Some(([], t[1..]))
    else
      var u := ReadUnit(t);
      if u.None? then None
      else
        var more := ReadBody(u.value.1);
        if more.None? then None else Some(([u.value.0] + more.value.0, more.value.1))
  }

  function ReadString(t: Text): (r: Option<(Text, Text)>)
    ensures r.Some? ==> |r.value.1| < |t|
  {
    if t != [] && t[0] == QUOTE then ReadBody(t[1..]) else None
  }

  lemma {:induction false} HexDigitReads(d: int)
    requires 0 <= d < 16
    ensures HexValue(HexDigit(d)) == Some(d)
  {
  }

  lemma {:induction false} HexParts(u: CodeUnit)
    ensures u / 4096 * 4096 + u / 256 % 16 * 256 + u / 16 % 16 * 16 + u % 16 == u
  {
    Halve(u, 16);
    Halve(u, 256);
    var a := u / 16;
    var b := a / 16;
    assert u == 16 * a + u % 16 && a == 16 * b + a % 16 && b == 16 * (b / 16) + b % 16;
  }

  lemma {:induction false} Halve(u: int, n: nat)
    requires u >= 0 && (n == 16 || n == 256)
    ensures u / n / 16 == u / (n * 16)
  {
    var q := u / n / 16;
    assert u / n == 16 * q + u / n % 16;
    assert u == n * (u / n) + u % n;
  }

  lemma {:induction false} HexReads(a: int, b: int, c: int, d: int, rest: Text)
    requires 0 <= a < 16 && 0 <= b < 16 && 0 <= c < 16 && 0 <= d < 16
    ensures ReadHex([HexDigit(a), HexDigit(b), HexDigit(c), HexDigit(d)] + rest)
            == Some(a * 4096 + b * 256 + c * 16 + d)
  {
    HexDigitReads(a);
    HexDigitReads(b);
    HexDigitReads(c);
    HexDigitReads(d);
  }

  lemma {:induction false} HexRoundTrip(u: CodeUnit, rest: Text)
    ensures ReadUnit(HexEscape(u) + rest) == Some((u, rest))
  {
    var t := HexEscape(u) + rest;
    assert t[6..] == rest;
    var a, b, c, d := u / 4096, u / 256 % 16, u / 16 % 16, u % 16;
    assert t[2..] == [HexDigit(a), HexDigit(b), HexDigit(c), HexDigit(d)] + rest;
    HexReads(a, b, c, d, rest);
    HexParts(u);
  }

  lemma {:induction false} EscapeUnitRoundTrip(u: CodeUnit, rest: Text)
    ensures ReadUnit(EscapeUnit(u) + rest) == Some((u, rest))
    ensures EscapeUnit(u)[0] != QUOTE
  {
    var t := EscapeUnit(u) + rest;
    if ShortEscape(u).Some? {
      assert t[2..] == rest;
    } else if u < 32 || Surrogate(u) {
      HexRoundTrip(u, rest);
    } else {
      assert t[1..] == rest;
    }
  }

  lemma {:induction false} PlainUnitReads(u: CodeUnit, rest: Text)
    requires Surrogate(u)
    ensures ReadUnit([u] + rest) == Some((u, rest))
  {
    assert ([u] + rest)[1..] == rest;
  }

  lemma {:induction false} BodyRoundTrip(s: Text, rest: Text)
    ensures ReadBody(Escape(s) + [QUOTE] + rest) == Some((s, rest))
    decreases |s|
  {
    hide ReadUnit;
    hide EscapeUnit;
    var t := Escape(s) + [QUOTE] + rest;
    if s == [] {
      assert t[1..] == rest;
    } else if |s| > 1 && High(s[0]) && Low(s[1]) {
      var after := Escape(s[2..]) + [QUOTE] + rest;
      BodyRoundTrip(s[2..], rest);
      assert t == [s[0]] + ([s[1]] + after);
      assert t[1..] == [s[1]] + after;
      assert ([s[1]] + after)[1..] == after;
      PlainUnitReads(s[0], [s[1]] + after);
      PlainUnitReads(s[1], after);
      assert s == [s[0]] + ([s[1]] + s[2..]);
    } else {
      var after := Escape(s[1..]) + [QUOTE] + rest;
      BodyRoundTrip(s[1..], rest);
      assert t == EscapeUnit(s[0]) + after;
      EscapeUnitRoundTrip(s[0], after);
      assert s == [s[0]] + s[1..];
    }
  }

  /** Reading a printed string gives the string back, whatever text follows it. */
  lemma {:induction false} StringRoundTrip(s: Text, rest: Text)
    ensures ReadString(Quoted(s) + rest) == Some((s, rest))
  {
    BodyRoundTrip(s, rest);
    assert (Quoted(s) + rest)[1..] == Escape(s) + [QUOTE] + rest;
  }

  /** No unpaired surrogate: the text has a UTF-8 encoding, so hashing its bytes loses nothing. */
  predicate WellFormed(t: Text) {
    if t == [] then true
    else if High(t[0]) then |t| > 1 && Low(t[1]) && WellFormed(t[2..])
    else !Low(t[0]) && WellFormed(t[1..])
  }

  lemma {:induction false} WellFormedAppend(a: Text, b: Text)
    requires WellFormed(a) && WellFormed(b)
    ensures WellFormed(a + b)
    decreases |a|
  {
    if a == [] {
      assert a + b == b;
    } else if High(a[0]) {
      WellFormedAppend(a[2..], b);
      assert (a + b)[2..] == a[2..] + b;
    } else {
      WellFormedAppend(a[1..], b);
      assert (a + b)[1..] == a[1..] + b;
    }
  }

  lemma {:induction false} PlainIsWellFormed(t: Text)
    requires forall i :: 0 <= i < |t| ==> !Surrogate(t[i])
    ensures WellFormed(t)
  {
    if t != [] { PlainIsWellFormed(t[1..]); }
  }

  lemma {:induction false} EscapeIsWellFormed(s: Text)
    ensures WellFormed(Escape(s))
    decreases |s|
  {
    if s == [] {
    } else if |s| > 1 && High(s[0]) && Low(s[1]) {
      EscapeIsWellFormed(s[2..]);
      assert Escape(s)[2..] == Escape(s[2..]);
    } else {
      EscapeIsWellFormed(s[1..]);
      PlainIsWellFormed(EscapeUnit(s[0]));
      WellFormedAppend(EscapeUnit(s[0]), Escape(s[1..]));
    }
  }

  lemma {:induction false} QuotedIsWellFormed(s: Text)
    ensures WellFormed(Quoted(s))
  {
    EscapeIsWellFormed(s);
    WellFormedAppend(Escape(s), [QUOTE]);
    assert Quoted(s)[1..] == Escape(s) + [QUOTE];
  }
}
