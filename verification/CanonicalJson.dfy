/** The canonical JSON printer every snapshot checksum depends on, a reader for the compact
    JSON texts of sections 3 to 7 of RFC 8259, and the proof that the printed text and the
    value determine each other up to member order and the sign of zero. */
module CanonicalJson {
  import opened Wrappers
  import opened JsonString
  import opened JsonNumber
  import opened KeyOrder
  import opened Lexicographic

  /** A JavaScript value. `Unsupported` stands for undefined, functions, symbols and bigints;
      an object lists its own enumerable members in `Object.keys` order. */
  datatype Value =
    | Null
    | Bool(b: bool)
    | Str(s: Text)
    | Num(n: Number)
    | Arr(elems: seq<Value>)
    | Obj(members: seq<Keyed<Value>>)
    | Unsupported

  datatype TypeError = NonFiniteNumber | UnsupportedType

  const COMMA: CodeUnit := 44
  const COLON: CodeUnit := 58
  const OPEN_ARRAY: CodeUnit := 91
  const CLOSE_ARRAY: CodeUnit := 93
  const OPEN_OBJECT: CodeUnit := 123
  const CLOSE_OBJECT: CodeUnit := 125
  const NULL_TEXT: Text := [110, 117, 108, 108]
  const TRUE_TEXT: Text := [116, 114, 117, 101]
  const FALSE_TEXT: Text := [102, 97, 108, 115, 101]

  /** The units the printer and the reader share are the characters of the JSON grammar. */
  lemma {:induction false} Punctuation()
    ensures [QUOTE, BACKSLASH, LOWER_U, COMMA, COLON] == Ascii("\"\\u,:")
    ensures [OPEN_ARRAY, CLOSE_ARRAY, OPEN_OBJECT, CLOSE_OBJECT] == Ascii("[]{}")
    ensures [MINUS, PLUS, DOT, LOWER_E, UPPER_E] == Ascii("-+.eE")
    ensures NULL_TEXT == Ascii("null") && TRUE_TEXT == Ascii("true") && FALSE_TEXT == Ascii("false")
  {
  }

  function Ascii(s: string): seq<int> { seq(|s|, i requires 0 <= i < |s| => s[i] as int) }

  function Join(ts: seq<Text>): Text {
    if ts == [] then [] else if |ts| == 1 then ts[0] else ts[0] + ([COMMA] + Join(ts[1..]))
  }

  /** canonicalJson */
  function Print(v: Value): Result<Text, TypeError>
    decreases v, 1, 0
  {
    match v
    case Null => Ok(NULL_TEXT)
    case Bool(b) => Ok(if b then TRUE_TEXT else FALSE_TEXT)
    case Str(s) => Ok(Quoted(s))
    case Num(n) => if n.NonFinite? then Err(NonFiniteNumber) else Ok(PrintNumber(n))
    case Arr(es) =>
      var parts := PrintElems(v, es);
      if parts.Err? then Err(parts.error) else Ok([OPEN_ARRAY] + (Join(parts.value) + [CLOSE_ARRAY]))
    case Obj(ms) =>
      var sorted := SortByKey(ms);
      SortElements(ms);
      var parts := PrintMembers(v, sorted);
      if parts.Err? then Err(parts.error) else Ok([OPEN_OBJECT] + (Join(parts.value) + [CLOSE_OBJECT]))
    case Unsupported => Err(UnsupportedType)
  }

  function PrintElems(parent: Value, es: seq<Value>): Result<seq<Text>, TypeError>
    requires parent.Arr? && forall e :: e in es ==> e in parent.elems
    decreases parent, 0, |es|
  {
    if es == [] then Ok([])
    else
      assert es[0] in parent.elems;
      var first := Print(es[0]);
      if first.Err? then Err(first.error)
      else
        var more := PrintElems(parent, es[1..]);
        if more.Err? then more else Ok([first.value] + more.value)
  }

  function PrintMembers(parent: Value, ms: seq<Keyed<Value>>): Result<seq<Text>, TypeError>
    requires parent.Obj? && forall m :: m in ms ==> m in parent.members
    decreases parent, 0, |ms|
  {
    if ms == [] then Ok([])
    else
      assert ms[0] in parent.members;
      var first := Print(ms[0].item);
      if first.Err? then Err(first.error)
      else
        var more := PrintMembers(parent, ms[1..]);
        if more.Err? then more else Ok([Quoted(ms[0].key) + ([COLON] + first.value)] + more.value)
  }

  /* ---- which values print ---- */

  /** The values JSON can express: no unsupported type and no non-finite number anywhere. */
  predicate Expressible(v: Value) {
    match v
    case Num(n) => !n.NonFinite?
    case Arr(es) => forall i :: 0 <= i < |es| ==> Expressible(es[i])
    case Obj(ms) => forall i :: 0 <= i < |ms| ==> Expressible(ms[i].item)
    case Unsupported => false
    case _ => true
  }

  /** Every object lists each of its keys once, as JavaScript objects do. */
  predicate WellKeyed(v: Value) {
    match v
    case Arr(es) => forall i :: 0 <= i < |es| ==> WellKeyed(es[i])
    case Obj(ms) => DistinctKeys(ms) && forall i :: 0 <= i < |ms| ==> WellKeyed(ms[i].item)
    case _ => true
  }

  /** The same value up to member order and the sign of zero. */
  predicate SameValue(v: Value, w: Value) {
    match v
    case Num(n) => w.Num? && (n == w.n || (n.Zero? && w.n.Zero?))
    case Arr(es) => w.Arr? && |es| == |w.elems| && forall i :: 0 <= i < |es| ==> SameValue(es[i], w.elems[i])
    case Obj(ms) =>
      && w.Obj?
      && KeySet(ms) == KeySet(w.members)
      && forall i, j :: 0 <= i < |ms| && 0 <= j < |w.members| && ms[i].key == w.members[j].key
                        ==> SameValue(ms[i].item, w.members[j].item)
    case _ => v == w
  }

  /* ---- the value a text denotes: members in key order, zeros unsigned ---- */

  function Canon(v: Value): Value
    decreases v, 1, 0
  {
    match v
    case Num(n) => if n.Zero? then Num(Zero(false)) else v
    case Arr(es) => Arr(CanonElems(v, es))
    case Obj(ms) =>
      SortElements(ms);
      Obj(CanonMembers(v, SortByKey(ms)))
    case _ => v
  }

  function CanonElems(parent: Value, es: seq<Value>): (r: seq<Value>)
    requires parent.Arr? && forall e :: e in es ==> e in parent.elems
    ensures |r| == |es| && forall i :: 0 <= i < |es| ==> es[i] in parent.elems && r[i] == Canon(es[i])
    decreases parent, 0, |es|
  {
    if es == [] then [] else assert es[0] in parent.elems; [Canon(es[0])] + CanonElems(parent, es[1..])
  }

  function CanonMembers(parent: Value, ms: seq<Keyed<Value>>): (r: seq<Keyed<Value>>)
    requires parent.Obj? && forall m :: m in ms ==> m in parent.members
    ensures |r| == |ms|
    ensures forall i :: 0 <= i < |ms| ==> ms[i] in parent.members && r[i] == Keyed(ms[i].key, Canon(ms[i].item))
    decreases parent, 0, |ms|
  {
    if ms == [] then []
    else
      assert ms[0] in parent.members;
      [Keyed(ms[0].key, Canon(ms[0].item))] + CanonMembers(parent, ms[1..])
  }

  lemma {:induction false} SameValueSameCanon(v: Value, w: Value)
    requires WellKeyed(v) && WellKeyed(w)
    ensures SameValue(v, w) <==> Canon(v) == Canon(w)
    decreases v
  {
    match v
    case Arr(es) =>
      if w.Arr? && |es| == |w.elems| {
        forall i | 0 <= i < |es| ensures SameValue(es[i], w.elems[i]) <==> Canon(es[i]) == Canon(w.elems[i]) {
          SameValueSameCanon(es[i], w.elems[i]);
        }
      }
    case Obj(ms) =>
      if w.Obj? {
        forall i, j | 0 <= i < |ms| && 0 <= j < |w.members|
          ensures SameValue(ms[i].item, w.members[j].item) <==> Canon(ms[i].item) == Canon(w.members[j].item)
        {
          SameValueSameCanon(ms[i].item, w.members[j].item);
        }
        ObjectsAgree(v, w);
      }
    case _ =>
  }

  lemma {:induction false} CanonShape(v: Value)
    requires v.Obj?
    ensures var s := SortByKey(v.members);
            && Canon(v).Obj? && |Canon(v).members| == |s|
            && forall i :: 0 <= i < |s| ==> Canon(v).members[i] == Keyed(s[i].key, Canon(s[i].item))
  {
    SortElements(v.members);
  }

  lemma {:induction false} ObjectsAgree(v: Value, w: Value)
    requires v.Obj? && w.Obj? && DistinctKeys(v.members) && DistinctKeys(w.members)
    ensures Canon(v) == Canon(w) <==> AgreeByKey(v.members, w.members, x => Canon(x))
  {
    hide SortByKey;
    hide Canon;
    hide AgreeByKey;
    hide DistinctKeys;
    var s, t := SortByKey(v.members), SortByKey(w.members);
    SortedAgree(v.members, w.members, x => Canon(x));
    CanonShape(v);
    CanonShape(w);
    var c, d := Canon(v).members, Canon(w).members;
    if Canon(v) == Canon(w) {
      assert forall i :: 0 <= i < |s| ==> s[i].key == c[i].key && t[i].key == d[i].key;
      assert AgreeInOrder(s, t, x => Canon(x));
    }
    if AgreeInOrder(s, t, x => Canon(x)) {
      assert c == d;
    }
  }

  /* ---- the reading side ---- */

  function ReadLiteral(t: Text, literal: Text, v: Value): (r: Option<(Value, Text)>)
    requires literal != []
    ensures r.Some? ==> |r.value.1| < |t|
  {
    if literal <= t then Some((v, t[|literal|..])) else None
  }

  function ReadValue(t: Text): (r: Option<(Value, Text)>)
    ensures r.Some? ==> |r.value.1| < |t|
    decreases |t|, 0
  {
    if t == [] then None
    else if t[0] == QUOTE then
      var s := ReadString(t);
      if s.None? then None else Some((Str(s.value.0), s.value.1))
    else if t[0] == OPEN_ARRAY then
      if |t| > 1 && t[1] == CLOSE_ARRAY then Some((Arr([]), t[2..]))
      else
        var es := ReadElems(t[1..]);
        if es.None? then None else Some((Arr(es.value.0), es.value.1))
    else if t[0] == OPEN_OBJECT then
      if |t| > 1 && t[1] == CLOSE_OBJECT then Some((Obj([]), t[2..]))
      else
        var ms := ReadMembers(t[1..]);
        if ms.None? then None else Some((Obj(ms.value.0), ms.value.1))
    else if IsDigit(t[0]) || t[0] == MINUS then
      var n := ReadNumber(t);
      if n.None? then None else Some((Num(n.value.0), n.value.1))
    else if t[0] == NULL_TEXT[0] then ReadLiteral(t, NULL_TEXT, Null)
    else if t[0] == TRUE_TEXT[0] then ReadLiteral(t, TRUE_TEXT, Bool(true))
    else ReadLiteral(t, FALSE_TEXT, Bool(false))
  }

  /** The elements of a non-empty array and its closing bracket. */
  function ReadElems(t: Text): (r: Option<(seq<Value>, Text)>)
    ensures r.Some? ==> |r.value.1| < |t|
    decreases |t|, 1
  {
    var first := ReadValue(t);
    if first.None? || first.value.1 == [] then None
    else if first.value.1[0] == CLOSE_ARRAY then Some(([first.value.0], first.value.1[1..]))
    else if first.value.1[0] != COMMA then None
    else
      var more := ReadElems(first.value.1[1..]);
      if more.None? then None else Some(([first.value.0] + more.value.0, more.value.1))
  }

  function ReadMember(t: Text): (r: Option<(Keyed<Value>, Text)>)
    ensures r.Some? ==> |r.value.1| < |t|
    decreases |t|, 1
  {
    var key := ReadString(t);
    if key.None? || key.value.1 == [] || key.value.1[0] != COLON then None
    else
      var item := ReadValue(key.value.1[1..]);
      if item.None? then None else Some((Keyed(key.value.0, item.value.0), item.value.1))
  }

  /** The members of a non-empty object and its closing brace. */
  function ReadMembers(t: Text): (r: Option<(seq<Keyed<Value>>, Text)>)
    ensures r.Some? ==> |r.value.1| < |t|
    decreases |t|, 2
  {
    var first := ReadMember(t);
    if first.None? || first.value.1 == [] then None
    else if first.value.1[0] == CLOSE_OBJECT then Some(([first.value.0], first.value.1[1..]))
    else if first.value.1[0] != COMMA then None
    else
      var more := ReadMembers(first.value.1[1..]);
      if more.None? then None else Some(([first.value.0] + more.value.0, more.value.1))
  }

  /* ---- the round trip ---- */

  /** The first unit of a printed value, which is what the reader dispatches on. */
  lemma {:induction false} PrintStart(v: Value)
    requires Print(v).Ok?
    ensures Print(v).value != [] && Print(v).value[0] != CLOSE_ARRAY
  {
    if v.Num? { PrintedNumberStart(v.n); }
  }

  lemma {:induction false} NumRoundTrip(n: Number, rest: Text)
    requires !n.NonFinite? && EndsNumber(rest)
    ensures ReadValue(PrintNumber(n) + rest) == Some((Canon(Num(n)), rest))
  {
    PrintedNumberStart(n);
    NumberRoundTrip(n, rest);
    NumberDispatch(PrintNumber(n) + rest);
  }

  lemma {:induction false} NumberDispatch(t: Text)
    requires t != [] && (IsDigit(t[0]) || t[0] == MINUS) && ReadNumber(t).Some?
    ensures ReadValue(t) == Some((Num(ReadNumber(t).value.0), ReadNumber(t).value.1))
  {
  }

  lemma {:induction false} StrRoundTrip(s: Text, rest: Text)
    ensures ReadValue(Quoted(s) + rest) == Some((Str(s), rest))
  {
    StringRoundTrip(s, rest);
  }

  lemma {:induction false} LiteralRoundTrip(v: Value, rest: Text)
    requires v.Null? || v.Bool?
    ensures ReadValue(Print(v).value + rest) == Some((v, rest))
  {
    var text := Print(v).value;
    assert (text + rest)[|text|..] == rest;
    assert (text + rest)[0] == text[0];
    assert text <= text + rest;
  }

  /** What follows a part inside brackets: the next part after a comma, or the closer. */
  lemma {:induction false} JoinStep(ts: seq<Text>, tail: Text)
    requires ts != []
    ensures |ts| == 1 ==> Join(ts) + tail == ts[0] + tail
    ensures |ts| > 1 ==> Join(ts) + tail == ts[0] + ([COMMA] + (Join(ts[1..]) + tail))
  {
    if |ts| > 1 {
      Assoc(ts[0], [COMMA] + Join(ts[1..]), tail);
      Assoc([COMMA], Join(ts[1..]), tail);
    }
  }

  /** One element read, and the list after it. */
  lemma {:induction false} ElemStep(first: Text, v: Value, tail: Text, more: seq<Value>, rest: Text)
    requires ReadValue(first + ([COMMA] + tail)) == Some((v, [COMMA] + tail))
    requires ReadElems(tail) == Some((more, rest))
    ensures ReadElems(first + ([COMMA] + tail)) == Some(([v] + more, rest))
  {
    assert ([COMMA] + tail)[1..] == tail;
  }

  lemma {:induction false} ElemEnd(first: Text, v: Value, rest: Text)
    requires ReadValue(first + ([CLOSE_ARRAY] + rest)) == Some((v, [CLOSE_ARRAY] + rest))
    ensures ReadElems(first + ([CLOSE_ARRAY] + rest)) == Some(([v], rest))
  {
    assert ([CLOSE_ARRAY] + rest)[1..] == rest;
  }

  lemma {:induction false} MemberStep(first: Text, m: Keyed<Value>, tail: Text, more: seq<Keyed<Value>>, rest: Text)
    requires ReadMember(first + ([COMMA] + tail)) == Some((m, [COMMA] + tail))
    requires ReadMembers(tail) == Some((more, rest))
    ensures ReadMembers(first + ([COMMA] + tail)) == Some(([m] + more, rest))
  {
    assert ([COMMA] + tail)[1..] == tail;
  }

  lemma {:induction false} MemberEnd(first: Text, m: Keyed<Value>, rest: Text)
    requires ReadMember(first + ([CLOSE_OBJECT] + rest)) == Some((m, [CLOSE_OBJECT] + rest))
    ensures ReadMembers(first + ([CLOSE_OBJECT] + rest)) == Some(([m], rest))
  {
    assert ([CLOSE_OBJECT] + rest)[1..] == rest;
  }

  lemma {:induction false} MemberReads(key: Text, text: Text, v: Value, tail: Text)
    requires ReadValue(text + tail) == Some((v, tail))
    ensures ReadMember((Quoted(key) + ([COLON] + text)) + tail) == Some((Keyed(key, v), tail))
  {
    Assoc(Quoted(key), [COLON] + text, tail);
    Assoc([COLON], text, tail);
    StringRoundTrip(key, [COLON] + (text + tail));
    assert ([COLON] + (text + tail))[1..] == text + tail;
  }

  /** A bracketed text and what follows it, taken apart at the bracket. */
  lemma {:induction false} Opens(open: CodeUnit, inner: Text, close: CodeUnit, rest: Text)
    requires inner != []
    ensures var t := ([open] + (inner + [close])) + rest;
            |t| > 1 && t[0] == open && t[1] == inner[0] && t[1..] == inner + ([close] + rest)
  {
    Assoc(inner, [close], rest);
  }

  lemma {:induction false} ArrayReads(inner: Text, es: seq<Value>, rest: Text)
    requires ReadElems(inner + ([CLOSE_ARRAY] + rest)) == Some((es, rest))
    requires inner != [] && inner[0] != CLOSE_ARRAY
    ensures ReadValue(([OPEN_ARRAY] + (inner + [CLOSE_ARRAY])) + rest) == Some((Arr(es), rest))
  {
    hide ReadElems;
    hide ReadMembers;
    Opens(OPEN_ARRAY, inner, CLOSE_ARRAY, rest);
  }

  lemma {:induction false} ObjectReads(inner: Text, ms: seq<Keyed<Value>>, rest: Text)
    requires ReadMembers(inner + ([CLOSE_OBJECT] + rest)) == Some((ms, rest))
    requires inner != [] && inner[0] != CLOSE_OBJECT
    ensures ReadValue(([OPEN_OBJECT] + (inner + [CLOSE_OBJECT])) + rest) == Some((Obj(ms), rest))
  {
    hide ReadElems;
    hide ReadMembers;
    Opens(OPEN_OBJECT, inner, CLOSE_OBJECT, rest);
  }

  lemma {:induction false} EmptyReads(open: CodeUnit, close: CodeUnit, rest: Text)
    requires (open, close) in {(OPEN_ARRAY, CLOSE_ARRAY), (OPEN_OBJECT, CLOSE_OBJECT)}
    ensures ReadValue(([open] + (Join([]) + [close])) + rest)
            == Some((if open == OPEN_ARRAY then Arr([]) else Obj([]), rest))
  {
    assert (([open] + (Join([]) + [close])) + rest)[2..] == rest;
  }

  lemma {:induction false} ElemsRoundTrip(parent: Value, es: seq<Value>, rest: Text)
    requires parent.Arr? && forall e :: e in es ==> e in parent.elems
    requires PrintElems(parent, es).Ok? && es != []
    ensures ReadElems(Join(PrintElems(parent, es).value) + ([CLOSE_ARRAY] + rest))
            == Some((CanonElems(parent, es), rest))
    ensures var inner := Join(PrintElems(parent, es).value); inner != [] && inner[0] != CLOSE_ARRAY
    decreases parent, 0, |es|
  {
    var ts := PrintElems(parent, es).value;
    assert es[0] in parent.elems;
    var close := [CLOSE_ARRAY] + rest;
    JoinStep(ts, close);
    PrintStart(es[0]);
    if |es| == 1 {
      assert es[1..] == [];
      PrintRoundTrip(es[0], close);
      ElemEnd(ts[0], Canon(es[0]), rest);
      assert CanonElems(parent, es) == [Canon(es[0])];
    } else {
      var tail := Join(ts[1..]) + close;
      assert ts[1..] == PrintElems(parent, es[1..]).value;
      PrintRoundTrip(es[0], [COMMA] + tail);
      ElemsRoundTrip(parent, es[1..], rest);
      ElemStep(ts[0], Canon(es[0]), tail, CanonElems(parent, es[1..]), rest);
    }
  }

  lemma {:induction false} MembersRoundTrip(parent: Value, ms: seq<Keyed<Value>>, rest: Text)
    requires parent.Obj? && forall m :: m in ms ==> m in parent.members
    requires PrintMembers(parent, ms).Ok? && ms != []
    ensures ReadMembers(Join(PrintMembers(parent, ms).value) + ([CLOSE_OBJECT] + rest))
            == Some((CanonMembers(parent, ms), rest))
    ensures var inner := Join(PrintMembers(parent, ms).value); inner != [] && inner[0] != CLOSE_OBJECT
    decreases parent, 0, |ms|
  {
    var ts := PrintMembers(parent, ms).value;
    assert ms[0] in parent.members;
    var close := [CLOSE_OBJECT] + rest;
    var text := Print(ms[0].item).value;
    var m := Keyed(ms[0].key, Canon(ms[0].item));
    JoinStep(ts, close);
    if |ms| == 1 {
      assert ms[1..] == [];
      PrintRoundTrip(ms[0].item, close);
      MemberReads(ms[0].key, text, m.item, close);
      MemberEnd(ts[0], m, rest);
      assert CanonMembers(parent, ms) == [m];
    } else {
      var tail := Join(ts[1..]) + close;
      assert ts[1..] == PrintMembers(parent, ms[1..]).value;
      PrintRoundTrip(ms[0].item, [COMMA] + tail);
      MemberReads(ms[0].key, text, m.item, [COMMA] + tail);
      MembersRoundTrip(parent, ms[1..], rest);
      MemberStep(ts[0], m, tail, CanonMembers(parent, ms[1..]), rest);
    }
  }

  /** Reading a printed text, followed by anything that cannot extend a number, gives back the
      value in canonical form and leaves exactly what followed. */
  lemma {:induction false} PrintRoundTrip(v: Value, rest: Text)
    requires Print(v).Ok? && EndsNumber(rest)
    ensures ReadValue(Print(v).value + rest) == Some((Canon(v), rest))
    decreases v, 1, 0
  {
    match v
    case Null => LiteralRoundTrip(v, rest);
    case Bool(_) => LiteralRoundTrip(v, rest);
    case Str(s) => StrRoundTrip(s, rest);
    case Num(n) => NumRoundTrip(n, rest);
    case Arr(es) =>
      if es == [] {
        EmptyReads(OPEN_ARRAY, CLOSE_ARRAY, rest);
      } else {
        ElemsRoundTrip(v, es, rest);
        ArrayReads(Join(PrintElems(v, es).value), CanonElems(v, es), rest);
      }
    case Obj(ms) =>
      var sorted := SortByKey(ms);
      SortElements(ms);
      if ms == [] {
        EmptyReads(OPEN_OBJECT, CLOSE_OBJECT, rest);
      } else {
        MembersRoundTrip(v, sorted, rest);
        ObjectReads(Join(PrintMembers(v, sorted).value), CanonMembers(v, sorted), rest);
      }
  }

  /** The members of a printed object come out in ascending key order: read back from the text, an
      earlier key is a proper prefix of a later one, or has the smaller UTF-16 code unit where the two
      first differ. */
  lemma {:induction false} PrintedInKeyOrder(ms: seq<Keyed<Value>>, rest: Text)
    requires DistinctKeys(ms) && Print(Obj(ms)).Ok? && EndsNumber(rest)
    ensures var read := ReadValue(Print(Obj(ms)).value + rest);
            && read.Some? && read.value.0.Obj? && read.value.1 == rest
            && var keys := Keys(read.value.0.members);
               && multiset(keys) == multiset(Keys(ms))
               && forall i, j :: 0 <= i < j < |keys| ==>
                    || keys[i] < keys[j]
                    || exists n :: 0 <= n < |keys[i]| && n < |keys[j]|
                                   && keys[i][..n] == keys[j][..n] && keys[i][n] < keys[j][n]
  {
    hide Print;
    hide ReadValue;
    hide Canon;
    hide Less;
    var sorted := SortByKey(ms);
    PrintRoundTrip(Obj(ms), rest);
    CanonShape(Obj(ms));
    SortAscending(ms);
    KeysOfSorted(ms);
    var read := Canon(Obj(ms)).members;
    assert Keys(read) == Keys(sorted);
    forall i, j | 0 <= i < j < |read|
      ensures read[i].key < read[j].key
              || exists n :: 0 <= n < |read[i].key| && n < |read[j].key|
                             && read[i].key[..n] == read[j].key[..n] && read[i].key[n] < read[j].key[n]
    {
      LessIff(sorted[i].key, sorted[j].key);
    }
  }

  /** The canonical form determines the text (or the error). */
  lemma {:induction false} CanonDeterminesText(v: Value, w: Value)
    requires Canon(v) == Canon(w)
    ensures Print(v) == Print(w)
    decreases v, 1, 0
  {
    match v
    case Arr(es) => ElemTextsAgree(v, es, w, w.elems);
    case Obj(ms) =>
      SortElements(ms);
      SortElements(w.members);
      MemberTextsAgree(v, SortByKey(ms), w, SortByKey(w.members));
    case _ =>
  }

  lemma {:induction false} ElemTextsAgree(v: Value, es: seq<Value>, w: Value, fs: seq<Value>)
    requires v.Arr? && (forall e :: e in es ==> e in v.elems) && w.Arr? && (forall e :: e in fs ==> e in w.elems)
    requires CanonElems(v, es) == CanonElems(w, fs)
    ensures PrintElems(v, es) == PrintElems(w, fs)
    decreases v, 0, |es|
  {
    if es != [] {
      assert es[0] in v.elems && CanonElems(v, es)[0] == Canon(es[0]) && CanonElems(w, fs)[0] == Canon(fs[0]);
      CanonDeterminesText(es[0], fs[0]);
      assert CanonElems(v, es)[1..] == CanonElems(v, es[1..]) && CanonElems(w, fs)[1..] == CanonElems(w, fs[1..]);
      ElemTextsAgree(v, es[1..], w, fs[1..]);
    }
  }

  lemma {:induction false} MemberTextsAgree(v: Value, ms: seq<Keyed<Value>>, w: Value, ns: seq<Keyed<Value>>)
    requires v.Obj? && (forall m :: m in ms ==> m in v.members) && w.Obj? && (forall m :: m in ns ==> m in w.members)
    requires CanonMembers(v, ms) == CanonMembers(w, ns)
    ensures PrintMembers(v, ms) == PrintMembers(w, ns)
    decreases v, 0, |ms|
  {
    if ms != [] {
      assert ms[0] in v.members;
      assert CanonMembers(v, ms)[0] == Keyed(ms[0].key, Canon(ms[0].item));
      assert CanonMembers(w, ns)[0] == Keyed(ns[0].key, Canon(ns[0].item));
      CanonDeterminesText(ms[0].item, ns[0].item);
      assert CanonMembers(v, ms)[1..] == CanonMembers(v, ms[1..]);
      assert CanonMembers(w, ns)[1..] == CanonMembers(w, ns[1..]);
      MemberTextsAgree(v, ms[1..], w, ns[1..]);
    }
  }

  /** Two values print to the same text exactly when they are the same value, up to member
      order and the sign of zero: a checksum of the text identifies the value. */
  lemma {:induction false} SameTextIffSameValue(v: Value, w: Value)
    requires WellKeyed(v) && WellKeyed(w) && Print(v).Ok? && Print(w).Ok?
    ensures Print(v) == Print(w) <==> SameValue(v, w)
  {
    SameValueSameCanon(v, w);
    PrintRoundTrip(v, []);
    PrintRoundTrip(w, []);
    if Canon(v) == Canon(w) {
      CanonDeterminesText(v, w);
    }
  }

  /** Reordering the members of an object never changes its text. */
  lemma {:induction false} ReorderingKeepsText(ms: seq<Keyed<Value>>, ns: seq<Keyed<Value>>)
    requires WellKeyed(Obj(ms)) && DistinctKeys(ns) && multiset(ms) == multiset(ns)
    ensures Print(Obj(ms)) == Print(Obj(ns))
  {
    PermutationMembers(ns, ms);
    SameMembersAgree(ms, ns);
    ObjectsAgree(Obj(ms), Obj(ns));
    CanonDeterminesText(Obj(ms), Obj(ns));
  }

  lemma {:induction false} SameMembersAgree(ms: seq<Keyed<Value>>, ns: seq<Keyed<Value>>)
    requires DistinctKeys(ms) && SameMembers(ns, ms)
    ensures AgreeByKey(ms, ns, x => Canon(x))
  {
    forall i, j | 0 <= i < |ms| && 0 <= j < |ns| && ms[i].key == ns[j].key ensures ms[i] == ns[j] {
      assert ns[j] in ms;
    }
    forall k | k in KeySet(ms) ensures k in KeySet(ns) {
      var i :| 0 <= i < |ms| && ms[i].key == k;
      assert ms[i] in ns;
    }
    forall k | k in KeySet(ns) ensures k in KeySet(ms) {
      var i :| 0 <= i < |ns| && ns[i].key == k;
      assert ns[i] in ms;
    }
  }

  /** The printer throws exactly on values JSON cannot express. */
  lemma {:induction false} PrintsIffExpressible(v: Value)
    ensures Print(v).Ok? <==> Expressible(v)
    decreases v, 1, 0
  {
    match v
    case Arr(es) => ElemsPrintIff(v, es);
    case Obj(ms) =>
      var sorted := SortByKey(ms);
      SortElements(ms);
      MembersPrintIff(v, sorted);
      ExpressibleMembers(sorted, ms);
      ExpressibleMembers(ms, sorted);
    case _ =>
  }

  lemma {:induction false} ExpressibleMembers(a: seq<Keyed<Value>>, b: seq<Keyed<Value>>)
    requires SameMembers(a, b) || SameMembers(b, a)
    ensures (forall i :: 0 <= i < |a| ==> Expressible(a[i].item)) ==>
              forall i :: 0 <= i < |b| ==> Expressible(b[i].item)
  {
    if forall i :: 0 <= i < |a| ==> Expressible(a[i].item) {
      forall i | 0 <= i < |b| ensures Expressible(b[i].item) {
        assert b[i] in a;
        var j :| 0 <= j < |a| && a[j] == b[i];
      }
    }
  }

  lemma {:induction false} ElemsPrintIff(parent: Value, es: seq<Value>)
    requires parent.Arr? && forall e :: e in es ==> e in parent.elems
    ensures PrintElems(parent, es).Ok? <==> forall i :: 0 <= i < |es| ==> Expressible(es[i])
    decreases parent, 0, |es|
  {
    if es != [] {
      assert es[0] in parent.elems;
      PrintsIffExpressible(es[0]);
      ElemsPrintIff(parent, es[1..]);
      assert es == [es[0]] + es[1..];
    }
  }

  lemma {:induction false} MembersPrintIff(parent: Value, ms: seq<Keyed<Value>>)
    requires parent.Obj? && forall m :: m in ms ==> m in parent.members
    ensures PrintMembers(parent, ms).Ok? <==> forall i :: 0 <= i < |ms| ==> Expressible(ms[i].item)
    decreases parent, 0, |ms|
  {
    if ms != [] {
      assert ms[0] in parent.members;
      PrintsIffExpressible(ms[0].item);
      MembersPrintIff(parent, ms[1..]);
      assert ms == [ms[0]] + ms[1..];
    }
  }

  /* ---- the printed text has a UTF-8 encoding ---- */

  lemma {:induction false} JoinIsWellFormed(ts: seq<Text>)
    requires forall i :: 0 <= i < |ts| ==> WellFormed(ts[i])
    ensures WellFormed(Join(ts))
  {
    if |ts| > 1 {
      JoinIsWellFormed(ts[1..]);
      WellFormedAppend([COMMA], Join(ts[1..]));
      WellFormedAppend(ts[0], [COMMA] + Join(ts[1..]));
    }
  }

  lemma {:induction false} BracketIsWellFormed(open: CodeUnit, ts: seq<Text>, close: CodeUnit)
    requires !Surrogate(open) && !Surrogate(close) && forall i :: 0 <= i < |ts| ==> WellFormed(ts[i])
    ensures WellFormed([open] + (Join(ts) + [close]))
  {
    JoinIsWellFormed(ts);
    WellFormedAppend(Join(ts), [close]);
    WellFormedAppend([open], Join(ts) + [close]);
  }

  /** The printed text never holds an unpaired surrogate, whatever strings the value holds. */
  lemma {:induction false} PrintedTextIsWellFormed(v: Value)
    requires Print(v).Ok?
    ensures WellFormed(Print(v).value)
    decreases v, 1, 0
  {
    match v
    case Null => PlainIsWellFormed(NULL_TEXT);
    case Bool(b) => PlainIsWellFormed(if b then TRUE_TEXT else FALSE_TEXT);
    case Str(s) => QuotedIsWellFormed(s);
    case Num(n) => PrintedNumberIsWellFormed(n);
    case Arr(es) =>
      ElemTextsAreWellFormed(v, es);
      BracketIsWellFormed(OPEN_ARRAY, PrintElems(v, es).value, CLOSE_ARRAY);
    case Obj(ms) =>
      SortElements(ms);
      MemberTextsAreWellFormed(v, SortByKey(ms));
      BracketIsWellFormed(OPEN_OBJECT, PrintMembers(v, SortByKey(ms)).value, CLOSE_OBJECT);
  }

  lemma {:induction false} ElemTextsAreWellFormed(parent: Value, es: seq<Value>)
    requires parent.Arr? && forall e :: e in es ==> e in parent.elems
    requires PrintElems(parent, es).Ok?
    ensures forall i :: 0 <= i < |PrintElems(parent, es).value| ==> WellFormed(PrintElems(parent, es).value[i])
    decreases parent, 0, |es|
  {
    if es != [] {
      assert es[0] in parent.elems;
      PrintedTextIsWellFormed(es[0]);
      ElemTextsAreWellFormed(parent, es[1..]);
    }
  }

  lemma {:induction false} MemberTextsAreWellFormed(parent: Value, ms: seq<Keyed<Value>>)
    requires parent.Obj? && forall m :: m in ms ==> m in parent.members
    requires PrintMembers(parent, ms).Ok?
    ensures forall i :: 0 <= i < |PrintMembers(parent, ms).value| ==> WellFormed(PrintMembers(parent, ms).value[i])
    decreases parent, 0, |ms|
  {
    if ms != [] {
      assert ms[0] in parent.members;
      var text := Print(ms[0].item).value;
      PrintedTextIsWellFormed(ms[0].item);
      QuotedIsWellFormed(ms[0].key);
      WellFormedAppend([COLON], text);
      WellFormedAppend(Quoted(ms[0].key), [COLON] + text);
      MemberTextsAreWellFormed(parent, ms[1..]);
    }
  }
}
