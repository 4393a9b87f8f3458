/**
 Canonical JSON text: keys in code-unit order, strings escaped as JSON.stringify escapes them. A
 parser reads every text back, so equal texts mean equal values.
 */
module CanonicalJson {
  import opened Common

  /** A UTF-16 code unit; JavaScript strings, and texts, are sequences of them. */
  type CodeUnit = u: nat | u < 0x10000
  type JsString = seq<CodeUnit>

  datatype Pair<T> = Pair(key: JsString, val: T)

  /** A number is given by its numeral: JavaScript prints every finite number in one way. */
  datatype Json =
    | Null
    | Bool(b: bool)
    | Num(numeral: JsString)
    | Str(text: JsString)
    | Arr(items: seq<Json>)
    | Obj(members: seq<Pair<Json>>)

  predicate NumeralUnit(u: CodeUnit) {
    0x30 <= u <= 0x39 || u == 0x2B || u == 0x2D || u == 0x2E || u == 0x45 || u == 0x65
  }

  predicate DigitUnit(u: CodeUnit) {
    0x30 <= u <= 0x39
  }

  function DigitRun(t: JsString): (n: nat)
    ensures n <= |t| && forall i :: 0 <= i < n ==> DigitUnit(t[i])
  {
    if t == [] || !DigitUnit(t[0]) then 0 else 1 + DigitRun(t[1..])
  }

  predicate IsExponent(t: JsString) {
    || t == []
    || (&& (t[0] == 0x45 || t[0] == 0x65)
        && var rest := if |t| > 1 && (t[1] == 0x2B || t[1] == 0x2D) then t[2..] else t[1..];
           rest != [] && DigitRun(rest) == |rest|)
  }

  predicate IsFraction(t: JsString) {
    if t != [] && t[0] == 0x2E then DigitRun(t[1..]) > 0 && IsExponent(t[1 + DigitRun(t[1..])..])
    else IsExponent(t)
  }

  predicate IsUnsigned(t: JsString) {
    DigitRun(t) > 0 && (DigitRun(t) > 1 ==> t[0] != 0x30) && IsFraction(t[DigitRun(t)..])
  }

  /** The number grammar of section 6 of RFC 8259. */
  predicate IsNumeral(t: JsString) {
    t != [] && IsUnsigned(if t[0] == 0x2D then t[1..] else t)
  }

  lemma ExponentUnits(t: JsString)
    requires IsExponent(t)
    ensures forall i :: 0 <= i < |t| ==> NumeralUnit(t[i])
  {
    if t != [] {
      var n := if |t| > 1 && (t[1] == 0x2B || t[1] == 0x2D) then 2 else 1;
      forall i | n <= i < |t| ensures NumeralUnit(t[i]) {
        assert t[i] == t[n..][i - n] && DigitUnit(t[n..][i - n]);
      }
    }
  }

  lemma FractionUnits(t: JsString)
    requires IsFraction(t)
    ensures forall i :: 0 <= i < |t| ==> NumeralUnit(t[i])
  {
    if t != [] && t[0] == 0x2E {
      var n := DigitRun(t[1..]);
      ExponentUnits(t[1 + n..]);
      forall i | 1 <= i < |t| ensures NumeralUnit(t[i]) {
        if i < 1 + n {
          assert t[i] == t[1..][i - 1] && DigitUnit(t[1..][i - 1]);
        } else {
          assert t[i] == t[1 + n..][i - 1 - n];
        }
      }
    } else {
      ExponentUnits(t);
    }
  }

  lemma UnsignedUnits(t: JsString)
    requires IsUnsigned(t)
    ensures forall i :: 0 <= i < |t| ==> NumeralUnit(t[i])
  {
    var n := DigitRun(t);
    FractionUnits(t[n..]);
    forall i | 0 <= i < |t| ensures NumeralUnit(t[i]) {
      if i >= n {
        assert t[i] == t[n..][i - n];
      }
    }
  }

  lemma NumeralUnits(t: JsString)
    requires IsNumeral(t)
    ensures t != [] && forall i :: 0 <= i < |t| ==> NumeralUnit(t[i])
  {
    if t[0] == 0x2D {
      UnsignedUnits(t[1..]);
      forall i | 1 <= i < |t| ensures NumeralUnit(t[i]) {
        assert t[i] == t[1..][i - 1];
      }
    } else {
      UnsignedUnits(t);
    }
  }

  predicate DistinctKeys<T>(ms: seq<Pair<T>>) {
    forall i, j :: 0 <= i < j < |ms| ==> ms[i].key != ms[j].key
  }

  predicate WellFormed(v: Json)
    decreases v
  {
    match v
    case Num(numeral) => IsNumeral(numeral)
    case Arr(items) => forall i :: 0 <= i < |items| ==> WellFormed(items[i])
    case Obj(ms) => DistinctKeys(ms) && forall i :: 0 <= i < |ms| ==> WellFormed(ms[i].val)
    case _ => true
  }

  // -- Order of keys -----------------------------------------------------------------------

  predicate Below(a: JsString, b: JsString) {
    b != [] && (a == [] || a[0] < b[0] || (a[0] == b[0] && Below(a[1..], b[1..])))
  }

  lemma {:induction false} BelowIsTotal(a: JsString, b: JsString)
    ensures a == b || Below(a, b) || Below(b, a)
    ensures !(Below(a, b) && Below(b, a)) && !Below(a, a)
  {
    if a == [] {
    } else {
      BelowIsTotal(a[1..], a[1..]);
      if b != [] && a[0] == b[0] {
        BelowIsTotal(a[1..], b[1..]);
        assert a == [a[0]] + a[1..] && b == [b[0]] + b[1..];
      }
    }
  }

  lemma {:induction false} BelowIsTransitive(a: JsString, b: JsString, c: JsString)
    requires Below(a, b) && Below(b, c)
    ensures Below(a, c)
  {
    if a != [] && a[0] == b[0] && b[0] == c[0] {
      BelowIsTransitive(a[1..], b[1..], c[1..]);
    }
  }

  function Insert<T>(p: Pair<T>, sorted: seq<Pair<T>>): seq<Pair<T>> {
    if sorted == [] then [p]
    else if Below(sorted[0].key, p.key) then [sorted[0]] + Insert(p, sorted[1..])
    else [p] + sorted
  }

  function SortByKey<T>(ms: seq<Pair<T>>): seq<Pair<T>> {
    if ms == [] then [] else Insert(ms[0], SortByKey(ms[1..]))
  }

  // -- Printing ----------------------------------------------------------------------------

  predicate HighSurrogate(u: CodeUnit) {
    0xD800 <= u <= 0xDBFF
  }

  predicate LowSurrogate(u: CodeUnit) {
    0xDC00 <= u <= 0xDFFF
  }

  function HexDigit(d: nat): CodeUnit
    requires d < 16
  {
    if d < 10 then 0x30 + d else 0x61 + d - 10
  }

  /** \uxxxx, in lower case. */
  function HexEscape(u: CodeUnit): JsString {
    [0x5C, 0x75, HexDigit(u / 4096), HexDigit(u / 256 % 16), HexDigit(u / 16 % 16), HexDigit(u % 16)]
  }

  function EscapeUnit(u: CodeUnit): JsString {
    if u == 0x08 then [0x5C, 0x62]
    else if u == 0x09 then [0x5C, 0x74]
    else if u == 0x0A then [0x5C, 0x6E]
    else if u == 0x0C then [0x5C, 0x66]
    else if u == 0x0D then [0x5C, 0x72]
    else if u == 0x22 || u == 0x5C then [0x5C, u]
    else if u < 0x20 || HighSurrogate(u) || LowSurrogate(u) then HexEscape(u)
    else [u]
  }

  predicate StartsWithPair(s: JsString) {
    |s| >= 2 && HighSurrogate(s[0]) && LowSurrogate(s[1])
  }

  /** Surrogates stay only in pairs; a lone one is escaped. */
  function Escape(s: JsString): JsString {
    if s == [] then []
    else if StartsWithPair(s) then [s[0], s[1]] + Escape(s[2..])
    else EscapeUnit(s[0]) + Escape(s[1..])
  }

  function Quote(s: JsString): JsString {
    [0x22] + Escape(s) + [0x22]
  }

  const TRUE_TEXT: JsString := [0x74, 0x72, 0x75, 0x65]
  const FALSE_TEXT: JsString := [0x66, 0x61, 0x6C, 0x73, 0x65]
  const NULL_TEXT: JsString := [0x6E, 0x75, 0x6C, 0x6C]

  function JoinTexts(texts: seq<JsString>): JsString {
    if texts == [] then []
    else if |texts| == 1 then texts[0]
    else texts[0] + [0x2C] + JoinTexts(texts[1..])
  }

  function ItemTexts(items: seq<Json>): (r: seq<JsString>)
    ensures |r| == |items|
    decreases items
  {
    if items == [] then [] else [StableStringify(items[0])] + ItemTexts(items[1..])
  }

  function MemberTexts(ms: seq<Pair<Json>>): (r: seq<Pair<JsString>>)
    ensures |r| == |ms|
    decreases ms
  {
    if ms == [] then [] else [Pair(ms[0].key, StableStringify(ms[0].val))] + MemberTexts(ms[1..])
  }

  /** One member as text: key, colon, value. */
  function Keyed(p: Pair<JsString>): JsString {
    Quote(p.key) + [0x3A] + p.val
  }

  function KeyedTexts(ms: seq<Pair<JsString>>): (r: seq<JsString>)
    ensures |r| == |ms|
  {
    if ms == [] then [] else [Keyed(ms[0])] + KeyedTexts(ms[1..])
  }

  function StableStringify(v: Json): JsString
    decreases v
  {
    match v
    case Null => NULL_TEXT
    case Bool(b) => if b then TRUE_TEXT else FALSE_TEXT
    case Num(numeral) => numeral
    case Str(text) => Quote(text)
    case Arr(items) => [0x5B] + JoinTexts(ItemTexts(items)) + [0x5D]
    case Obj(ms) => [0x7B] + JoinTexts(KeyedTexts(SortByKey(MemberTexts(ms)))) + [0x7D]
  }

  // -- Parsing -----------------------------------------------------------------------------

  function HexValue(u: CodeUnit): Option<nat> {
    if 0x30 <= u <= 0x39 then Some(u - 0x30)
    else if 0x61 <= u <= 0x66 then Some(u - 0x61 + 10)
    else if 0x41 <= u <= 0x46 then Some(u - 0x41 + 10)
    else None
  }

  function HexUnit(a: nat, b: nat, c: nat, d: nat): Option<(CodeUnit, nat)> {
    if a < 16 && b < 16 && c < 16 && d < 16 then Some((4096 * a + 256 * b + 16 * c + d, 6)) else None
  }

  /** One escape sequence, section 7 of RFC 8259: the unit it stands for and its length. */
  function Unescape(t: JsString): Option<(CodeUnit, nat)>
    requires t != [] && t[0] == 0x5C
  {
    if |t| < 2 then None
    else
      var c := t[1];
      if c == 0x62 then Some((0x08, 2))
      else if c == 0x74 then Some((0x09, 2))
      else if c == 0x6E then Some((0x0A, 2))
      else if c == 0x66 then Some((0x0C, 2))
      else if c == 0x72 then Some((0x0D, 2))
      else if c == 0x22 || c == 0x5C || c == 0x2F then Some((c, 2))
      else if c == 0x75 && |t| >= 6 then
        var a, b, d, e := HexValue(t[2]), HexValue(t[3]), HexValue(t[4]), HexValue(t[5]);
        if a.Some? && b.Some? && d.Some? && e.Some? then HexUnit(a.value, b.value, d.value, e.value) else None
      else None
  }

  /** The rest of a string literal, after its opening quote; control characters must be escaped. */
  function ParseString(t: JsString): (r: Option<(JsString, JsString)>)
    ensures r.Some? ==> |r.value.1| < |t|
    decreases |t|
  {
    if t == [] then None
    else if t[0] == 0x22 then Some(([], t[1..]))
    else if t[0] == 0x5C then
      match Unescape(t)
      case None => None
      case Some(escaped) =>
        if |t| < escaped.1 || escaped.1 == 0 then None
        else match ParseString(t[escaped.1..])
          case None => None
          case Some(more) => Some(([escaped.0] + more.0, more.1))
    else if t[0] < 0x20 then None
    else match ParseString(t[1..])
      case None => None
      case Some(more) => Some(([t[0]] + more.0, more.1))
  }

  function NumeralLength(t: JsString): (n: nat)
    ensures n <= |t|
  {
    if t == [] || !NumeralUnit(t[0]) then 0 else 1 + NumeralLength(t[1..])
  }

  function ParseValue(t: JsString): (r: Option<(Json, JsString)>)
    ensures r.Some? ==> |r.value.1| < |t|
    decreases |t|, 1
  {
    if NULL_TEXT <= t then Some((Null, t[4..]))
    else if TRUE_TEXT <= t then Some((Bool(true), t[4..]))
    else if FALSE_TEXT <= t then Some((Bool(false), t[5..]))
    else if t == [] then None
    else if t[0] == 0x22 then
      match ParseString(t[1..])
      case None => None
      case Some(s) => Some((Str(s.0), s.1))
    else if t[0] == 0x5B then
      if |t| >= 2 && t[1] == 0x5D then Some((Arr([]), t[2..]))
      else match ParseItems(t[1..])
        case None => None
        case Some(items) => Some((Arr(items.0), items.1))
    else if t[0] == 0x7B then
      if |t| >= 2 && t[1] == 0x7D then Some((Obj([]), t[2..]))
      else match ParseMembers(t[1..])
        case None => None
        case Some(ms) => Some((Obj(ms.0), ms.1))
    else
      var n := NumeralLength(t);
      if IsNumeral(t[..n]) then Some((Num(t[..n]), t[n..])) else None
  }

  function ParseItems(t: JsString): (r: Option<(seq<Json>, JsString)>)
    ensures r.Some? ==> |r.value.1| < |t|
    decreases |t|, 2
  {
    match ParseValue(t)
    case None => None
    case Some(first) =>
      if first.1 == [] then None
      else if first.1[0] == 0x5D then Some(([first.0], first.1[1..]))
      else if first.1[0] != 0x2C then None
      else match ParseItems(first.1[1..])
        case None => None
        case Some(rest) => Some(([first.0] + rest.0, rest.1))
  }

  function ParseMember(t: JsString): (r: Option<(Pair<Json>, JsString)>)
    ensures r.Some? ==> |r.value.1| < |t|
    decreases |t|, 2
  {
    if t == [] || t[0] != 0x22 then None
    else match ParseString(t[1..])
      case None => None
      case Some(key) =>
        if key.1 == [] || key.1[0] != 0x3A then None
        else match ParseValue(key.1[1..])
          case None => None
          case Some(val) => Some((Pair(key.0, val.0), val.1))
  }

  function ParseMembers(t: JsString): (r: Option<(seq<Pair<Json>>, JsString)>)
    ensures r.Some? ==> |r.value.1| < |t|
    decreases |t|, 3
  {
    match ParseMember(t)
    case None => None
    case Some(first) =>
      if first.1 == [] then None
      else if first.1[0] == 0x7D then Some(([first.0], first.1[1..]))
      else if first.1[0] != 0x2C then None
      else match ParseMembers(first.1[1..])
        case None => None
        case Some(rest) => Some(([first.0] + rest.0, rest.1))
  }

  // -- Strings read back -------------------------------------------------------------------

  lemma HexDigitsAdd(u: CodeUnit)
    ensures u / 4096 < 16
    ensures 4096 * (u / 4096) + 256 * (u / 256 % 16) + 16 * (u / 16 % 16) + u % 16 == u
  {
    assert u / 4096 == u / 256 / 16;
    assert u / 256 == u / 16 / 16;
  }

  lemma HexReadsBack(u: CodeUnit, rest: JsString)
    ensures Unescape(HexEscape(u) + rest) == Some((u, 6))
  {
    var t := HexEscape(u) + rest;
    assert t[1] == 0x75;
    assert HexValue(t[2]) == Some(u / 4096);
    assert HexValue(t[3]) == Some(u / 256 % 16);
    assert HexValue(t[4]) == Some(u / 16 % 16);
    assert HexValue(t[5]) == Some(u % 16);
    HexDigitsAdd(u);
  }

  lemma EscapedUnitReadsBack(u: CodeUnit, rest: JsString)
    requires EscapeUnit(u) != [u]
    ensures (EscapeUnit(u) + rest)[0] == 0x5C
    ensures Unescape(EscapeUnit(u) + rest) == Some((u, |EscapeUnit(u)|))
  {
    if EscapeUnit(u) == HexEscape(u) {
      HexReadsBack(u, rest);
    }
  }

  function PutFirst(u: CodeUnit, r: Option<(JsString, JsString)>): Option<(JsString, JsString)> {
    match r
    case None => None
    case Some(more) => Some(([u] + more.0, more.1))
  }

  lemma ParseEscape(e: JsString, u: CodeUnit, tail: JsString)
    requires e != [] && e[0] == 0x5C
    requires Unescape(e + tail) == Some((u, |e|))
    ensures ParseString(e + tail) == PutFirst(u, ParseString(tail))
  {
    assert (e + tail)[|e|..] == tail;
  }

  lemma ParsePlain(u: CodeUnit, tail: JsString)
    requires u >= 0x20 && u != 0x22 && u != 0x5C
    ensures ParseString([u] + tail) == PutFirst(u, ParseString(tail))
  {
    assert ([u] + tail)[1..] == tail;
  }

  lemma UnitReadsBack(u: CodeUnit, tail: JsString)
    ensures ParseString(EscapeUnit(u) + tail) == PutFirst(u, ParseString(tail))
  {
    if EscapeUnit(u) == [u] {
      ParsePlain(u, tail);
    } else {
      EscapedUnitReadsBack(u, tail);
      ParseEscape(EscapeUnit(u), u, tail);
    }
  }

  lemma Regroup(a: JsString, b: JsString, c: JsString, d: JsString)
    ensures a + b + c + d == a + (b + c + d)
  {}

  lemma PairReadsBack(u: CodeUnit, v: CodeUnit, tail: JsString)
    requires HighSurrogate(u) && LowSurrogate(v)
    ensures ParseString([u, v] + tail) == PutFirst(u, PutFirst(v, ParseString(tail)))
  {
    ParsePlain(v, tail);
    ParsePlain(u, [v] + tail);
    assert [u, v] + tail == [u] + ([v] + tail);
  }

  lemma {:induction false} StringReadsBack(s: JsString, rest: JsString)
    ensures ParseString(Escape(s) + [0x22] + rest) == Some((s, rest))
    decreases |s|
  {
    if s == [] {
      assert ParseString([0x22] + rest) == Some(([], rest)) by {
        assert ([0x22] + rest)[1..] == rest;
      }
      assert Escape(s) + [0x22] + rest == [0x22] + rest;
    } else if StartsWithPair(s) {
      var front, back := [s[0], s[1]], s[2..];
      StringReadsBack(back, rest);
      Regroup(front, Escape(back), [0x22], rest);
      PairReadsBack(s[0], s[1], Escape(back) + [0x22] + rest);
      assert s == [s[0]] + ([s[1]] + back);
    } else {
      var front, back := EscapeUnit(s[0]), s[1..];
      StringReadsBack(back, rest);
      Regroup(front, Escape(back), [0x22], rest);
      UnitReadsBack(s[0], Escape(back) + [0x22] + rest);
      assert s == [s[0]] + back;
    }
  }

  // -- Canonical values --------------------------------------------------------------------

  function CanonItems(items: seq<Json>): (r: seq<Json>)
    ensures |r| == |items|
    decreases items
  {
    if items == [] then [] else [Canon(items[0])] + CanonItems(items[1..])
  }

  function CanonMembers(ms: seq<Pair<Json>>): (r: seq<Pair<Json>>)
    ensures |r| == |ms|
    decreases ms
  {
    if ms == [] then [] else [Pair(ms[0].key, Canon(ms[0].val))] + CanonMembers(ms[1..])
  }

  /** The value with the keys of every object in order. */
  function Canon(v: Json): Json
    decreases v
  {
    match v
    case Arr(items) => Arr(CanonItems(items))
    case Obj(ms) => Obj(SortByKey(CanonMembers(ms)))
    case _ => v
  }

  /** Sorting looks at keys only: two lists with the same keys are permuted alike. */
  predicate SameKeys<S, T>(a: seq<Pair<S>>, b: seq<Pair<T>>) {
    |a| == |b| && forall i :: 0 <= i < |a| ==> a[i].key == b[i].key
  }

  predicate Stops(rest: JsString) {
    rest == [] || !NumeralUnit(rest[0])
  }

  /** A text that the parser turns into a value, whatever follows that is not part of a number. */
  ghost predicate ReadsBack(text: JsString, v: Json) {
    forall rest: JsString :: Stops(rest) ==> ParseValue(text + rest) == Some((v, rest))
  }

  ghost predicate MemberBack(p: Pair<JsString>, q: Pair<Json>) {
    p.key == q.key && ReadsBack(p.val, q.val)
  }

  ghost predicate Related(texts: seq<Pair<JsString>>, values: seq<Pair<Json>>) {
    |texts| == |values| && forall i :: 0 <= i < |texts| ==> MemberBack(texts[i], values[i])
  }

  /** Sorting permutes two lists alike when they agree in their keys, so it keeps any relation of their members. */
  ghost predicate Matched<S(!new), T(!new)>(rel: (Pair<S>, Pair<T>) -> bool, a: seq<Pair<S>>, b: seq<Pair<T>>) {
    SameKeys(a, b) && forall i :: 0 <= i < |a| ==> rel(a[i], b[i])
  }

  lemma {:induction false} InsertMatched<S(!new), T(!new)>(
    rel: (Pair<S>, Pair<T>) -> bool, p: Pair<S>, q: Pair<T>, a: seq<Pair<S>>, b: seq<Pair<T>>)
    requires Matched(rel, a, b) && p.key == q.key && rel(p, q)
    ensures Matched(rel, Insert(p, a), Insert(q, b))
  {
    if a != [] && Below(a[0].key, p.key) {
      InsertMatched(rel, p, q, a[1..], b[1..]);
    }
  }

  lemma {:induction false} SortMatched<S(!new), T(!new)>(rel: (Pair<S>, Pair<T>) -> bool, a: seq<Pair<S>>,
      b: seq<Pair<T>>)
    requires Matched(rel, a, b)
    ensures Matched(rel, SortByKey(a), SortByKey(b))
  {
    if a == [] {
    } else {
      SortMatched(rel, a[1..], b[1..]);
      InsertMatched(rel, a[0], b[0], SortByKey(a[1..]), SortByKey(b[1..]));
    }
  }

  lemma SortRelated(texts: seq<Pair<JsString>>, values: seq<Pair<Json>>)
    requires Related(texts, values)
    ensures Related(SortByKey(texts), SortByKey(values))
  {
    ghost var rel: (Pair<JsString>, Pair<Json>) -> bool := (p, q) => MemberBack(p, q);
    assert forall i :: 0 <= i < |texts| ==> MemberBack(texts[i], values[i]);
    assert Matched(rel, texts, values);
    SortMatched(rel, texts, values);
    var a, b := SortByKey(texts), SortByKey(values);
    forall i | 0 <= i < |a| ensures MemberBack(a[i], b[i]) {
      assert rel(a[i], b[i]);
    }
  }

  // -- Values read back --------------------------------------------------------------------

  lemma ItemReadsBack(text: JsString, v: Json, tail: JsString)
    requires ReadsBack(text, v) && tail != [] && (tail[0] == 0x5D || tail[0] == 0x2C)
    ensures ParseItems(text + tail) ==
      if tail[0] == 0x5D then Some(([v], tail[1..]))
      else match ParseItems(tail[1..])
        case None => None
        case Some(rest) => Some(([v] + rest.0, rest.1))
  {
    assert ParseValue(text + tail) == Some((v, tail));
  }

  lemma Front(u: CodeUnit, more: JsString)
    ensures ([u] + more)[0] == u && ([u] + more)[1..] == more
  {}

  lemma RegroupComma(first: JsString, joined: JsString, close: CodeUnit, rest: JsString)
    ensures first + [0x2C] + joined + [close] + rest == first + ([0x2C] + (joined + [close] + rest))
  {}

  lemma JoinFirst(texts: seq<JsString>, close: CodeUnit, rest: JsString)
    requires texts != []
    ensures JoinTexts(texts) + [close] + rest ==
      texts[0] + (if |texts| == 1 then [close] + rest else [0x2C] + (JoinTexts(texts[1..]) + [close] + rest))
  {
    if |texts| > 1 {
      RegroupComma(texts[0], JoinTexts(texts[1..]), close, rest);
    } else {
      assert texts[0] + [close] + rest == texts[0] + ([close] + rest);
    }
  }

  lemma LastItem(text: JsString, v: Json, rest: JsString)
    requires ReadsBack(text, v)
    ensures ParseItems(text + ([0x5D] + rest)) == Some(([v], rest))
  {
    Front(0x5D, rest);
    ItemReadsBack(text, v, [0x5D] + rest);
  }

  lemma NextItem(text: JsString, v: Json, more: JsString, values: seq<Json>, rest: JsString)
    requires ReadsBack(text, v) && ParseItems(more) == Some((values, rest))
    ensures ParseItems(text + ([0x2C] + more)) == Some(([v] + values, rest))
  {
    Front(0x2C, more);
    ItemReadsBack(text, v, [0x2C] + more);
  }

  lemma MoreItems(texts: seq<JsString>, values: seq<Json>, rest: JsString)
    requires |texts| == |values| > 1 && ReadsBack(texts[0], values[0])
    requires ParseItems(JoinTexts(texts[1..]) + [0x5D] + rest) == Some((values[1..], rest))
    ensures ParseItems(JoinTexts(texts) + [0x5D] + rest) == Some((values, rest))
  {
    var more := JoinTexts(texts[1..]) + [0x5D] + rest;
    NextItem(texts[0], values[0], more, values[1..], rest);
    assert JoinTexts(texts) + [0x5D] + rest == texts[0] + ([0x2C] + more) by {
      JoinFirst(texts, 0x5D, rest);
    }
    assert values == [values[0]] + values[1..];
  }

  lemma {:induction false} ItemsReadBack(texts: seq<JsString>, values: seq<Json>, rest: JsString)
    requires |texts| == |values| > 0
    requires forall i :: 0 <= i < |texts| ==> ReadsBack(texts[i], values[i])
    ensures ParseItems(JoinTexts(texts) + [0x5D] + rest) == Some((values, rest))
    decreases |texts|
  {
    if |texts| == 1 {
      JoinFirst(texts, 0x5D, rest);
      LastItem(texts[0], values[0], rest);
      assert values == [values[0]];
    } else {
      ItemsReadBack(texts[1..], values[1..], rest);
      MoreItems(texts, values, rest);
    }
  }

  lemma RegroupKey(escaped: JsString, val: JsString, tail: JsString)
    ensures
      var t := [0x22] + escaped + [0x22] + [0x3A] + val + tail;
      t[0] == 0x22 && t[1..] == escaped + [0x22] + ([0x3A] + val + tail)
  {}

  lemma KeyReadsBack(p: Pair<JsString>, tail: JsString)
    ensures
      var t := Keyed(p) + tail;
      t[0] == 0x22 && ParseString(t[1..]) == Some((p.key, [0x3A] + p.val + tail))
  {
    StringReadsBack(p.key, [0x3A] + p.val + tail);
    RegroupKey(Escape(p.key), p.val, tail);
  }

  lemma MemberReadsBack(p: Pair<JsString>, q: Pair<Json>, tail: JsString)
    requires MemberBack(p, q) && Stops(tail)
    ensures ParseMember(Keyed(p) + tail) == Some((q, tail))
  {
    KeyReadsBack(p, tail);
    var after := [0x3A] + p.val + tail;
    assert after[0] == 0x3A && after[1..] == p.val + tail;
    assert ParseValue(p.val + tail) == Some((q.val, tail));
  }

  lemma KeyedFirst(texts: seq<Pair<JsString>>, rest: JsString)
    requires texts != []
    ensures JoinTexts(KeyedTexts(texts)) + [0x7D] + rest ==
      Keyed(texts[0]) +
        (if |texts| == 1 then [0x7D] + rest else [0x2C] + (JoinTexts(KeyedTexts(texts[1..])) + [0x7D] + rest))
  {
    var keyed := KeyedTexts(texts);
    assert keyed[0] == Keyed(texts[0]) && keyed[1..] == KeyedTexts(texts[1..]);
    JoinFirst(keyed, 0x7D, rest);
  }

  lemma LastMember(p: Pair<JsString>, q: Pair<Json>, rest: JsString)
    requires MemberBack(p, q)
    ensures ParseMembers(Keyed(p) + ([0x7D] + rest)) == Some(([q], rest))
  {
    Front(0x7D, rest);
    MemberReadsBack(p, q, [0x7D] + rest);
  }

  lemma NextMember(p: Pair<JsString>, q: Pair<Json>, more: JsString, values: seq<Pair<Json>>, rest: JsString)
    requires MemberBack(p, q) && ParseMembers(more) == Some((values, rest))
    ensures ParseMembers(Keyed(p) + ([0x2C] + more)) == Some(([q] + values, rest))
  {
    Front(0x2C, more);
    MemberReadsBack(p, q, [0x2C] + more);
  }

  lemma MoreMembers(texts: seq<Pair<JsString>>, values: seq<Pair<Json>>, rest: JsString)
    requires |texts| == |values| > 1 && MemberBack(texts[0], values[0])
    requires ParseMembers(JoinTexts(KeyedTexts(texts[1..])) + [0x7D] + rest) == Some((values[1..], rest))
    ensures ParseMembers(JoinTexts(KeyedTexts(texts)) + [0x7D] + rest) == Some((values, rest))
  {
    var more := JoinTexts(KeyedTexts(texts[1..])) + [0x7D] + rest;
    NextMember(texts[0], values[0], more, values[1..], rest);
    assert JoinTexts(KeyedTexts(texts)) + [0x7D] + rest == Keyed(texts[0]) + ([0x2C] + more) by {
      KeyedFirst(texts, rest);
    }
    assert values == [values[0]] + values[1..];
  }

  lemma {:induction false} MembersReadBack(texts: seq<Pair<JsString>>, values: seq<Pair<Json>>, rest: JsString)
    requires Related(texts, values) && texts != []
    ensures ParseMembers(JoinTexts(KeyedTexts(texts)) + [0x7D] + rest) == Some((values, rest))
    decreases |texts|
  {
    assert MemberBack(texts[0], values[0]);
    if |texts| == 1 {
      KeyedFirst(texts, rest);
      LastMember(texts[0], values[0], rest);
      assert values == [values[0]];
    } else {
      MembersReadBack(texts[1..], values[1..], rest);
      MoreMembers(texts, values, rest);
    }
  }

  lemma {:induction false} NumeralReadsBack(numeral: JsString, rest: JsString)
    requires (forall i :: 0 <= i < |numeral| ==> NumeralUnit(numeral[i])) && Stops(rest)
    ensures NumeralLength(numeral + rest) == |numeral|
  {
    if numeral != [] {
      assert (numeral + rest)[1..] == numeral[1..] + rest;
      NumeralReadsBack(numeral[1..], rest);
    } else {
      assert numeral + rest == rest;
    }
  }

  lemma NumberValue(t: JsString, n: nat)
    requires 0 < n <= |t| && NumeralUnit(t[0]) && NumeralLength(t) == n && IsNumeral(t[..n])
    ensures ParseValue(t) == Some((Num(t[..n]), t[n..]))
  {}

  lemma NumberReadsBack(numeral: JsString)
    requires IsNumeral(numeral)
    ensures ReadsBack(numeral, Num(numeral))
  {
    NumeralUnits(numeral);
    forall rest: JsString | Stops(rest) ensures ParseValue(numeral + rest) == Some((Num(numeral), rest)) {
      var t := numeral + rest;
      NumeralReadsBack(numeral, rest);
      assert t[..|numeral|] == numeral && t[|numeral|..] == rest && t[0] == numeral[0];
      NumberValue(t, |numeral|);
    }
  }

  lemma QuotedValue(t: JsString, s: JsString, rest: JsString)
    requires t != [] && t[0] == 0x22 && ParseString(t[1..]) == Some((s, rest))
    ensures ParseValue(t) == Some((Str(s), rest))
  {}

  lemma LiteralReadsBack(s: JsString, rest: JsString)
    ensures ParseValue(Quote(s) + rest) == Some((Str(s), rest))
  {
    StringReadsBack(s, rest);
    assert (Quote(s) + rest)[1..] == Escape(s) + [0x22] + rest;
    QuotedValue(Quote(s) + rest, s, rest);
  }

  lemma TextReadsBack(s: JsString)
    ensures ReadsBack(Quote(s), Str(s))
  {
    forall rest: JsString | Stops(rest) ensures ParseValue(Quote(s) + rest) == Some((Str(s), rest)) {
      LiteralReadsBack(s, rest);
    }
  }

  lemma WordsReadBack()
    ensures ReadsBack(NULL_TEXT, Null) && ReadsBack(TRUE_TEXT, Bool(true)) && ReadsBack(FALSE_TEXT, Bool(false))
  {
    forall rest: JsString | Stops(rest)
      ensures ParseValue(NULL_TEXT + rest) == Some((Null, rest))
      ensures ParseValue(TRUE_TEXT + rest) == Some((Bool(true), rest))
      ensures ParseValue(FALSE_TEXT + rest) == Some((Bool(false), rest))
    {
      assert (NULL_TEXT + rest)[4..] == rest;
      assert (TRUE_TEXT + rest)[4..] == rest && (TRUE_TEXT + rest)[0] == 0x74;
      assert (FALSE_TEXT + rest)[5..] == rest && (FALSE_TEXT + rest)[0] == 0x66;
    }
  }

  lemma {:induction false} ItemTextsAt(items: seq<Json>, i: nat)
    requires i < |items|
    ensures ItemTexts(items)[i] == StableStringify(items[i]) && CanonItems(items)[i] == Canon(items[i])
    decreases |items|
  {
    if i > 0 {
      ItemTextsAt(items[1..], i - 1);
    } else if |items| > 1 {
      ItemTextsAt(items[1..], 0);
    }
  }

  lemma {:induction false} MemberTextsAt(ms: seq<Pair<Json>>, i: nat)
    requires i < |ms|
    ensures MemberTexts(ms)[i] == Pair(ms[i].key, StableStringify(ms[i].val))
    ensures CanonMembers(ms)[i] == Pair(ms[i].key, Canon(ms[i].val))
    decreases |ms|
  {
    if i > 0 {
      MemberTextsAt(ms[1..], i - 1);
    } else if |ms| > 1 {
      MemberTextsAt(ms[1..], 0);
    }
  }

  lemma ArrayText(items: seq<Json>, rest: JsString)
    ensures StableStringify(Arr(items)) + rest ==
      if items == [] then [0x5B, 0x5D] + rest else [0x5B] + (JoinTexts(ItemTexts(items)) + [0x5D] + rest)
  {}

  lemma BracketIsNoValue(t: JsString)
    ensures t != [] && t[0] == 0x5D ==> ParseItems(t) == None
  {
    if t != [] && t[0] == 0x5D {
      assert NumeralLength(t) == 0 && !IsNumeral(t[..0]);
    }
  }

  lemma ArrayOpens(t: JsString, values: seq<Json>, rest: JsString)
    requires ParseItems(t) == Some((values, rest))
    ensures ParseValue([0x5B] + t) == Some((Arr(values), rest))
  {
    Front(0x5B, t);
    BracketIsNoValue(t);
  }

  lemma ArrayReadsBackBefore(items: seq<Json>, rest: JsString)
    requires forall i :: 0 <= i < |items| ==> ReadsBack(StableStringify(items[i]), Canon(items[i]))
    ensures ParseValue(StableStringify(Arr(items)) + rest) == Some((Arr(CanonItems(items)), rest))
  {
    ArrayText(items, rest);
    if items == [] {
      assert ([0x5B, 0x5D] + rest)[2..] == rest;
    } else {
      var texts, values := ItemTexts(items), CanonItems(items);
      forall i | 0 <= i < |items| ensures ReadsBack(texts[i], values[i]) {
        ItemTextsAt(items, i);
      }
      ItemsReadBack(texts, values, rest);
      ArrayOpens(JoinTexts(texts) + [0x5D] + rest, values, rest);
    }
  }

  lemma ArrayReadsBack(items: seq<Json>)
    requires forall i :: 0 <= i < |items| ==> ReadsBack(StableStringify(items[i]), Canon(items[i]))
    ensures ReadsBack(StableStringify(Arr(items)), Arr(CanonItems(items)))
  {
    forall rest: JsString | Stops(rest)
      ensures ParseValue(StableStringify(Arr(items)) + rest) == Some((Arr(CanonItems(items)), rest))
    {
      ArrayReadsBackBefore(items, rest);
    }
  }

  lemma ObjectText(ms: seq<Pair<Json>>, rest: JsString)
    ensures StableStringify(Obj(ms)) + rest ==
      if ms == [] then [0x7B, 0x7D] + rest
      else [0x7B] + (JoinTexts(KeyedTexts(SortByKey(MemberTexts(ms)))) + [0x7D] + rest)
  {}

  lemma ObjectOpens(t: JsString, values: seq<Pair<Json>>, rest: JsString)
    requires ParseMembers(t) == Some((values, rest))
    ensures ParseValue([0x7B] + t) == Some((Obj(values), rest))
  {
    Front(0x7B, t);
    assert t[0] == 0x22;
  }

  lemma {:induction false} InsertKeepsLength<T>(p: Pair<T>, sorted: seq<Pair<T>>)
    ensures |Insert(p, sorted)| == |sorted| + 1
  {
    if sorted != [] && Below(sorted[0].key, p.key) {
      InsertKeepsLength(p, sorted[1..]);
    }
  }

  lemma {:induction false} SortKeepsLength<T>(ms: seq<Pair<T>>)
    ensures |SortByKey(ms)| == |ms|
  {
    if ms == [] {
    } else {
      SortKeepsLength(ms[1..]);
      InsertKeepsLength(ms[0], SortByKey(ms[1..]));
    }
  }

  lemma MembersAreRelated(ms: seq<Pair<Json>>)
    requires forall i :: 0 <= i < |ms| ==> ReadsBack(StableStringify(ms[i].val), Canon(ms[i].val))
    ensures Related(SortByKey(MemberTexts(ms)), SortByKey(CanonMembers(ms)))
    ensures |SortByKey(MemberTexts(ms))| == |ms|
  {
    if ms != [] {
      forall i | 0 <= i < |ms|
        ensures MemberBack(MemberTexts(ms)[i], CanonMembers(ms)[i])
      {
        MemberTextsAt(ms, i);
      }
      SortRelated(MemberTexts(ms), CanonMembers(ms));
      SortKeepsLength(MemberTexts(ms));
    }
  }

  lemma ObjectReadsBackBefore(ms: seq<Pair<Json>>, rest: JsString)
    requires forall i :: 0 <= i < |ms| ==> ReadsBack(StableStringify(ms[i].val), Canon(ms[i].val))
    ensures ParseValue(StableStringify(Obj(ms)) + rest) == Some((Obj(SortByKey(CanonMembers(ms))), rest))
  {
    ObjectText(ms, rest);
    if ms == [] {
      assert ([0x7B, 0x7D] + rest)[2..] == rest;
    } else {
      var texts, values := SortByKey(MemberTexts(ms)), SortByKey(CanonMembers(ms));
      MembersAreRelated(ms);
      MembersReadBack(texts, values, rest);
      ObjectOpens(JoinTexts(KeyedTexts(texts)) + [0x7D] + rest, values, rest);
    }
  }

  lemma ObjectReadsBack(ms: seq<Pair<Json>>)
    requires forall i :: 0 <= i < |ms| ==> ReadsBack(StableStringify(ms[i].val), Canon(ms[i].val))
    ensures ReadsBack(StableStringify(Obj(ms)), Obj(SortByKey(CanonMembers(ms))))
  {
    forall rest: JsString | Stops(rest)
      ensures ParseValue(StableStringify(Obj(ms)) + rest) == Some((Obj(SortByKey(CanonMembers(ms))), rest))
    {
      ObjectReadsBackBefore(ms, rest);
    }
  }

  /** The parser recovers every value, up to the order of keys. */
  lemma {:induction false} ValueReadsBack(v: Json)
    requires WellFormed(v)
    ensures ReadsBack(StableStringify(v), Canon(v))
    decreases v
  {
    match v
    case Num(numeral) => NumberReadsBack(numeral);
    case Str(text) => TextReadsBack(text);
    case Arr(items) =>
      forall i | 0 <= i < |items| ensures ReadsBack(StableStringify(items[i]), Canon(items[i])) {
        ValueReadsBack(items[i]);
      }
      ArrayReadsBack(items);
    case Obj(ms) =>
      forall i | 0 <= i < |ms| ensures ReadsBack(StableStringify(ms[i].val), Canon(ms[i].val)) {
        ValueReadsBack(ms[i].val);
      }
      ObjectReadsBack(ms);
    case _ => WordsReadBack();
  }

  /** Parsing the canonical text gives back the value with its keys in order, and leaves nothing over. */
  lemma RoundTrip(v: Json)
    requires WellFormed(v)
    ensures ParseValue(StableStringify(v)) == Some((Canon(v), []))
  {
    ValueReadsBack(v);
    assert StableStringify(v) + [] == StableStringify(v);
  }

  // -- Meanings ----------------------------------------------------------------------------

  /** What a value says: the members of an object have no order. */
  datatype Meaning =
    | NoValue
    | Truth(b: bool)
    | Number(numeral: JsString)
    | Text(text: JsString)
    | List(items: seq<Meaning>)
    | Record(members: map<JsString, Meaning>)

  function ItemMeanings(items: seq<Json>): (r: seq<Meaning>)
    ensures |r| == |items|
    decreases items
  {
    if items == [] then [] else [MeaningOf(items[0])] + ItemMeanings(items[1..])
  }

  function MemberMeanings(ms: seq<Pair<Json>>): map<JsString, Meaning>
    decreases ms
  {
    if ms == [] then map[] else MemberMeanings(ms[1..])[ms[0].key := MeaningOf(ms[0].val)]
  }

  function MeaningOf(v: Json): Meaning
    decreases v
  {
    match v
    case Null => NoValue
    case Bool(b) => Truth(b)
    case Num(numeral) => Number(numeral)
    case Str(text) => Text(text)
    case Arr(items) => List(ItemMeanings(items))
    case Obj(ms) => Record(MemberMeanings(ms))
  }

  function MapOf<T>(ms: seq<Pair<T>>): map<JsString, T> {
    if ms == [] then map[] else MapOf(ms[1..])[ms[0].key := ms[0].val]
  }

  predicate StrictlySorted<T>(ms: seq<Pair<T>>) {
    forall i, j :: 0 <= i < j < |ms| ==> Below(ms[i].key, ms[j].key)
  }

  lemma {:induction false} MapOfAt<T>(ms: seq<Pair<T>>, i: nat)
    requires DistinctKeys(ms) && i < |ms|
    ensures ms[i].key in MapOf(ms) && MapOf(ms)[ms[i].key] == ms[i].val
  {
    if i == 0 {
    } else {
      MapOfAt(ms[1..], i - 1);
    }
  }

  lemma {:induction false} MapOfKeys<T>(ms: seq<Pair<T>>, key: JsString)
    ensures key in MapOf(ms) <==> exists i :: 0 <= i < |ms| && ms[i].key == key
  {
    if ms == [] {
    } else {
      MapOfKeys(ms[1..], key);
      if key in MapOf(ms[1..]) {
        var i :| 0 <= i < |ms[1..]| && ms[1..][i].key == key;
        assert ms[i + 1].key == key;
      }
    }
  }

  lemma InsertInFront<T>(p: Pair<T>, sorted: seq<Pair<T>>)
    requires StrictlySorted(sorted) && sorted != [] && p.key != sorted[0].key
    requires !Below(sorted[0].key, p.key)
    ensures StrictlySorted([p] + sorted)
  {
    BelowIsTotal(sorted[0].key, p.key);
    forall j | 0 <= j < |sorted| ensures Below(p.key, sorted[j].key) {
      if j > 0 {
        BelowIsTransitive(p.key, sorted[0].key, sorted[j].key);
      }
    }
  }

  lemma {:induction false} KeysLieBehind<T>(first: Pair<T>, tail: seq<Pair<T>>, key: JsString)
    requires StrictlySorted([first] + tail) && key in MapOf(tail)
    ensures Below(first.key, key)
  {
    MapOfKeys(tail, key);
    var i :| 0 <= i < |tail| && tail[i].key == key;
    var whole := [first] + tail;
    assert whole[0] == first && whole[i + 1] == tail[i];
  }

  lemma {:induction false} PrependSorted<T>(first: Pair<T>, rest: seq<Pair<T>>)
    requires StrictlySorted(rest)
    requires forall key :: key in MapOf(rest) ==> Below(first.key, key)
    ensures StrictlySorted([first] + rest)
  {
    forall j | 0 <= j < |rest| ensures Below(first.key, rest[j].key) {
      MapOfKeys(rest, rest[j].key);
    }
  }

  lemma {:induction false} InsertBehind<T>(first: Pair<T>, p: Pair<T>, tail: seq<Pair<T>>, rest: seq<Pair<T>>)
    requires StrictlySorted([first] + tail) && StrictlySorted(rest)
    requires Below(first.key, p.key) && MapOf(rest) == MapOf(tail)[p.key := p.val]
    ensures StrictlySorted([first] + rest)
  {
    forall key | key in MapOf(rest) ensures Below(first.key, key) {
      if key != p.key {
        KeysLieBehind(first, tail, key);
      }
    }
    PrependSorted(first, rest);
  }

  lemma {:induction false} InsertKeepsMap<T>(p: Pair<T>, sorted: seq<Pair<T>>)
    requires StrictlySorted(sorted) && p.key !in MapOf(sorted)
    ensures StrictlySorted(Insert(p, sorted))
    ensures MapOf(Insert(p, sorted)) == MapOf(sorted)[p.key := p.val]
  {
    if sorted == [] {
      assert Insert(p, sorted)[1..] == [];
    } else if Below(sorted[0].key, p.key) {
      var rest := Insert(p, sorted[1..]);
      InsertKeepsMap(p, sorted[1..]);
      assert [sorted[0]] + sorted[1..] == sorted;
      InsertBehind(sorted[0], p, sorted[1..], rest);
      assert Insert(p, sorted)[1..] == rest;
    } else {
      InsertInFront(p, sorted);
      assert Insert(p, sorted)[1..] == sorted;
    }
  }

  lemma {:induction false} SortKeepsMap<T>(ms: seq<Pair<T>>)
    requires DistinctKeys(ms)
    ensures StrictlySorted(SortByKey(ms)) && MapOf(SortByKey(ms)) == MapOf(ms)
  {
    if ms == [] {
    } else {
      SortKeepsMap(ms[1..]);
      MapOfKeys(ms[1..], ms[0].key);
      InsertKeepsMap(ms[0], SortByKey(ms[1..]));
    }
  }

  lemma SortedIsDistinct<T>(a: seq<Pair<T>>)
    requires StrictlySorted(a)
    ensures DistinctKeys(a)
  {
    forall i, j | 0 <= i < j < |a| ensures a[i].key != a[j].key {
      BelowIsTotal(a[i].key, a[j].key);
    }
  }

  lemma FirstIsLeast<T>(a: seq<Pair<T>>, b: seq<Pair<T>>)
    requires StrictlySorted(b) && a != [] && MapOf(a) == MapOf(b)
    ensures b != [] && (b[0].key == a[0].key || Below(b[0].key, a[0].key))
  {
    MapOfKeys(a, a[0].key);
    MapOfKeys(b, a[0].key);
    var i :| 0 <= i < |b| && b[i].key == a[0].key;
  }

  lemma MapOfRest<T>(a: seq<Pair<T>>)
    requires DistinctKeys(a) && a != []
    ensures MapOf(a[1..]) == MapOf(a) - {a[0].key}
  {
    MapOfKeys(a[1..], a[0].key);
  }

  /** A map has one sorted list. */
  lemma {:induction false} SortedListIsUnique<T>(a: seq<Pair<T>>, b: seq<Pair<T>>)
    requires StrictlySorted(a) && StrictlySorted(b) && MapOf(a) == MapOf(b)
    ensures a == b
  {
    if a == [] {
      if b != [] {
        MapOfKeys(a, b[0].key);
      }
    } else {
      SortedIsDistinct(a);
      SortedIsDistinct(b);
      FirstIsLeast(a, b);
      FirstIsLeast(b, a);
      BelowIsTotal(a[0].key, b[0].key);
      MapOfAt(a, 0);
      MapOfAt(b, 0);
      assert a[0] == b[0];
      MapOfRest(a);
      MapOfRest(b);
      SortedListIsUnique(a[1..], b[1..]);
      assert a == [a[0]] + a[1..] && b == [b[0]] + b[1..];
    }
  }

  lemma {:induction false} MeaningsFollowMap(ms: seq<Pair<Json>>, key: JsString)
    ensures key in MemberMeanings(ms) <==> key in MapOf(ms)
    ensures key in MapOf(ms) ==> MemberMeanings(ms)[key] == MeaningOf(MapOf(ms)[key])
    decreases |ms|
  {
    if ms == [] {
    } else {
      MeaningsFollowMap(ms[1..], key);
    }
  }

  lemma {:induction false} CanonFollowsMap(ms: seq<Pair<Json>>, key: JsString)
    ensures key in MapOf(CanonMembers(ms)) <==> key in MapOf(ms)
    ensures key in MapOf(ms) ==> MapOf(CanonMembers(ms))[key] == Canon(MapOf(ms)[key])
    decreases |ms|
  {
    if ms == [] {
    } else {
      CanonFollowsMap(ms[1..], key);
      assert CanonMembers(ms)[1..] == CanonMembers(ms[1..]);
    }
  }

  lemma {:induction false} TextsFollowMap(ms: seq<Pair<Json>>, key: JsString)
    ensures key in MapOf(MemberTexts(ms)) <==> key in MapOf(ms)
    ensures key in MapOf(ms) ==> MapOf(MemberTexts(ms))[key] == StableStringify(MapOf(ms)[key])
    decreases |ms|
  {
    if ms == [] {
    } else {
      TextsFollowMap(ms[1..], key);
      assert MemberTexts(ms)[1..] == MemberTexts(ms[1..]);
    }
  }

  lemma {:induction false} ItemMeaningsAt(items: seq<Json>, i: nat)
    requires i < |items|
    ensures ItemMeanings(items)[i] == MeaningOf(items[i])
    decreases |items|
  {
    if i == 0 {
    } else {
      ItemMeaningsAt(items[1..], i - 1);
    }
  }

  lemma MemberOfMap(ms: seq<Pair<Json>>, key: JsString) returns (i: nat)
    requires DistinctKeys(ms) && key in MapOf(ms)
    ensures i < |ms| && ms[i].key == key && ms[i].val == MapOf(ms)[key]
  {
    MapOfKeys(ms, key);
    i :| 0 <= i < |ms| && ms[i].key == key;
    MapOfAt(ms, i);
  }

  lemma CanonMembersDistinct(ms: seq<Pair<Json>>)
    requires DistinctKeys(ms)
    ensures DistinctKeys(CanonMembers(ms)) && DistinctKeys(MemberTexts(ms))
  {
    forall i, j | 0 <= i < j < |ms|
      ensures CanonMembers(ms)[i].key != CanonMembers(ms)[j].key && MemberTexts(ms)[i].key != MemberTexts(ms)[j].key
    {
      MemberTextsAt(ms, i);
      MemberTextsAt(ms, j);
    }
  }

  /** Ordering the keys changes nothing in what a value says. */
  lemma {:induction false} CanonKeepsMeaning(v: Json)
    requires WellFormed(v)
    ensures MeaningOf(Canon(v)) == MeaningOf(v)
    decreases v
  {
    match v
    case Arr(items) =>
      forall i | 0 <= i < |items| ensures ItemMeanings(CanonItems(items))[i] == ItemMeanings(items)[i] {
        CanonKeepsMeaning(items[i]);
        ItemTextsAt(items, i);
        ItemMeaningsAt(items, i);
        ItemMeaningsAt(CanonItems(items), i);
      }
      assert ItemMeanings(CanonItems(items)) == ItemMeanings(items);
    case Obj(ms) =>
      CanonMembersDistinct(ms);
      SortKeepsMap(CanonMembers(ms));
      var sorted := SortByKey(CanonMembers(ms));
      forall key
        ensures key in MemberMeanings(sorted) <==> key in MemberMeanings(ms)
        ensures key in MemberMeanings(ms) ==> MemberMeanings(sorted)[key] == MemberMeanings(ms)[key]
      {
        MeaningsFollowMap(sorted, key);
        MeaningsFollowMap(ms, key);
        CanonFollowsMap(ms, key);
        if key in MapOf(ms) {
          var i := MemberOfMap(ms, key);
          CanonKeepsMeaning(ms[i].val);
        }
      }
      assert MemberMeanings(sorted) == MemberMeanings(ms);
    case _ =>
  }

  lemma {:induction false} SameMeaningSameText(v: Json, w: Json)
    requires WellFormed(v) && WellFormed(w) && MeaningOf(v) == MeaningOf(w)
    ensures StableStringify(v) == StableStringify(w)
    decreases v
  {
    match v
    case Arr(items) =>
      assert |ItemMeanings(items)| == |ItemMeanings(w.items)|;
      forall i | 0 <= i < |items| ensures ItemTexts(items)[i] == ItemTexts(w.items)[i] {
        ItemMeaningsAt(items, i);
        ItemMeaningsAt(w.items, i);
        SameMeaningSameText(items[i], w.items[i]);
        ItemTextsAt(items, i);
        ItemTextsAt(w.items, i);
      }
      assert ItemTexts(items) == ItemTexts(w.items);
    case Obj(ms) =>
      forall key
        ensures key in MapOf(MemberTexts(ms)) <==> key in MapOf(MemberTexts(w.members))
        ensures key in MapOf(MemberTexts(ms)) ==> MapOf(MemberTexts(ms))[key] == MapOf(MemberTexts(w.members))[key]
      {
        MeaningsFollowMap(ms, key);
        MeaningsFollowMap(w.members, key);
        TextsFollowMap(ms, key);
        TextsFollowMap(w.members, key);
        if key in MapOf(ms) {
          var i := MemberOfMap(ms, key);
          var j := MemberOfMap(w.members, key);
          SameMeaningSameText(ms[i].val, w.members[j].val);
        }
      }
      assert MapOf(MemberTexts(ms)) == MapOf(MemberTexts(w.members));
      CanonMembersDistinct(ms);
      CanonMembersDistinct(w.members);
      SortKeepsMap(MemberTexts(ms));
      SortKeepsMap(MemberTexts(w.members));
      SortedListIsUnique(SortByKey(MemberTexts(ms)), SortByKey(MemberTexts(w.members)));
    case _ =>
  }

  /** Two values have the same canonical text exactly when they say the same. */
  lemma TextsAgreeExactlyWithMeanings(v: Json, w: Json)
    requires WellFormed(v) && WellFormed(w)
    ensures StableStringify(v) == StableStringify(w) <==> MeaningOf(v) == MeaningOf(w)
  {
    RoundTrip(v);
    RoundTrip(w);
    CanonKeepsMeaning(v);
    CanonKeepsMeaning(w);
    if MeaningOf(v) == MeaningOf(w) {
      SameMeaningSameText(v, w);
    }
  }
}
