/** The canonical fiscal payload: what a command and the document stored for it both reduce to. */
module FiscalPayload {
  import opened Common
  import opened CanonicalJson
  import opened DecimalText
  import SD = ScaledDecimal

  // -- ASCII text --------------------------------------------------------------------------

  predicate IsAscii(s: string) {
    forall i :: 0 <= i < |s| ==> s[i] as int < 0x80
  }

  function Units(s: string): (r: JsString)
    requires IsAscii(s)
    ensures |r| == |s|
  {
    seq(|s|, i requires 0 <= i < |s| => s[i] as int as nat)
  }

  /** The text of ASCII units; nothing outside ASCII is a decimal. */
  function AsciiText(u: JsString): Option<string> {
    if forall i :: 0 <= i < |u| ==> u[i] < 0x80
    then Some(seq(|u|, i requires 0 <= i < |u| => u[i] as char)) else None
  }

  lemma AsciiRoundTrip(s: string)
    requires IsAscii(s)
    ensures AsciiText(Units(s)) == Some(s)
  {
    assert AsciiText(Units(s)).value == s;
  }

  lemma UnitsIsInjective(s: string, t: string)
    requires IsAscii(s) && IsAscii(t) && Units(s) == Units(t)
    ensures s == t
  {
    AsciiRoundTrip(s);
    AsciiRoundTrip(t);
  }

  lemma DecimalIsAscii(d: SD.ScaledDecimal)
    ensures IsAscii(SD.ToString(d))
  {
    var whole, fraction := SD.Whole(d), SD.Fraction(d);
    assert forall i :: 0 <= i < |whole| ==> IsDigit(whole[i]);
    assert forall i :: 0 <= i < |fraction| ==> IsDigit(fraction[i]);
  }

  function IntegerText(n: int): (s: string)
    ensures IsAscii(s) && s != ""
    ensures forall i :: 0 <= i < |s| ==> IsDigit(s[i]) || s[i] == '-'
  {
    if n < 0 then "-" + Digits(-n) else Digits(n)
  }

  function IntegerValue(s: string): int
    requires s != "" && AllDigits(if s[0] == '-' then s[1..] else s)
  {
    if s[0] == '-' then -(Value(s[1..]) as int) else Value(s)
  }

  lemma IntegerRoundTrip(n: int)
    ensures
      var s := IntegerText(n);
      AllDigits(if s[0] == '-' then s[1..] else s) && IntegerValue(s) == n
  {
    var magnitude: nat := if n < 0 then -n else n;
    DigitsRoundTrip(magnitude);
    assert n < 0 ==> IntegerText(n)[1..] == Digits(magnitude);
    assert IsDigit(Digits(magnitude)[0]);
  }

  lemma IntegerTextIsInjective(m: int, n: int)
    requires IntegerText(m) == IntegerText(n)
    ensures m == n
  {
    IntegerRoundTrip(m);
    IntegerRoundTrip(n);
  }

  // -- Values that may be normalised -------------------------------------------------------

  /** A JavaScript value. `Odd` stands for what JSON does not know: infinities, functions, symbols. */
  datatype Raw =
    | Undefined
    | RawNull
    | RawBool(b: bool)
    | RawNumber(numeral: JsString)
    | RawString(text: JsString)
    | RawArray(items: seq<Raw>)
    | RawObject(members: seq<Pair<Raw>>)
    | Odd

  datatype PayloadError = NotJson | BadDate | BadDecimal | BadInteger | TextRequired | StoredInvalid

  function LowerUnit(u: CodeUnit): CodeUnit {
    if 0x41 <= u <= 0x5A then u + 0x20 else u
  }

  predicate EndsWithLower(field: JsString, suffix: JsString) {
    |suffix| <= |field|
    && forall i :: 0 <= i < |suffix| ==> LowerUnit(field[|field| - |suffix| + i]) == suffix[i]
  }

  /** The pattern (date|at)$, without regard to case. */
  predicate IsDateField(field: JsString) {
    EndsWithLower(field, [0x64, 0x61, 0x74, 0x65]) || EndsWithLower(field, [0x61, 0x74])
  }

  predicate DigitUnit(u: CodeUnit) {
    0x30 <= u <= 0x39
  }

  /** The pattern \d{4}-\d{2}-\d{2} */
  predicate IsPlainDate(s: JsString) {
    && |s| == 10 && s[4] == 0x2D && s[7] == 0x2D
    && forall i :: 0 <= i < 10 && i != 4 && i != 7 ==> DigitUnit(s[i])
  }

  /** What Date parsing and toISOString make of a text, if it is a time at all. */
  type Parser = JsString -> Option<JsString>

  /** An ISO time text stands for itself. */
  ghost predicate Stable(parse: Parser) {
    forall s, t :: parse(s) == Some(t) ==> parse(t) == Some(t)
  }

  function NormalizeDate(parse: Parser, value: JsString, field: JsString): Result<JsString, PayloadError> {
    if !IsDateField(field) || IsPlainDate(value) then Ok(value)
    else match parse(value)
      case None => Err(BadDate)
      case Some(iso) => Ok(iso)
  }

  function NormalizeJson(parse: Parser, value: Raw, field: JsString): Result<Json, PayloadError>
    decreases value
  {
    match value
    case RawNull => Ok(Null)
    case RawString(text) =>
      (match NormalizeDate(parse, text, field)
       case Err(error) => Err(error)
       case Ok(normal) => Ok(Str(normal)))
    case RawBool(b) => Ok(Bool(b))
    case RawNumber(numeral) => if IsNumeral(numeral) then Ok(Num(numeral)) else Err(NotJson)
    case RawArray(items) =>
      (match NormalizeItems(parse, items, field, 0)
       case Err(error) => Err(error)
       case Ok(normal) => Ok(Arr(normal)))
    case RawObject(ms) =>
      (match NormalizeMembers(parse, ms)
       case Err(error) => Err(error)
       case Ok(normal) => Ok(Obj(normal)))
    case Undefined => Err(NotJson)
    case Odd => Err(NotJson)
  }

  function ItemField(field: JsString, index: nat): JsString {
    field + [0x5B] + Units(IntegerText(index)) + [0x5D]
  }

  function NormalizeItems(parse: Parser, items: seq<Raw>, field: JsString, index: nat): Result<seq<Json>, PayloadError>
    decreases items
  {
    if items == [] then Ok([])
    else match NormalizeJson(parse, items[0], ItemField(field, index))
      case Err(error) => Err(error)
      case Ok(first) =>
        match NormalizeItems(parse, items[1..], field, index + 1)
        case Err(error) => Err(error)
        case Ok(rest) => Ok([first] + rest)
  }

  /** Members that are undefined are left out. */
  function NormalizeMembers(parse: Parser, ms: seq<Pair<Raw>>): Result<seq<Pair<Json>>, PayloadError>
    decreases ms
  {
    if ms == [] then Ok([])
    else if ms[0].val == Undefined then NormalizeMembers(parse, ms[1..])
    else match NormalizeJson(parse, ms[0].val, ms[0].key)
      case Err(error) => Err(error)
      case Ok(first) =>
        match NormalizeMembers(parse, ms[1..])
        case Err(error) => Err(error)
        case Ok(rest) => Ok([Pair(ms[0].key, first)] + rest)
  }

  // -- JSON values as values ---------------------------------------------------------------

  function RawItems(items: seq<Json>): (r: seq<Raw>)
    ensures |r| == |items|
    decreases items
  {
    if items == [] then [] else [AsRaw(items[0])] + RawItems(items[1..])
  }

  function RawMembers(ms: seq<Pair<Json>>): (r: seq<Pair<Raw>>)
    ensures |r| == |ms|
    decreases ms
  {
    if ms == [] then [] else [Pair(ms[0].key, AsRaw(ms[0].val))] + RawMembers(ms[1..])
  }

  function AsRaw(v: Json): (r: Raw)
    ensures r != Undefined
    decreases v
  {
    match v
    case Null => RawNull
    case Bool(b) => RawBool(b)
    case Num(numeral) => RawNumber(numeral)
    case Str(text) => RawString(text)
    case Arr(items) => RawArray(RawItems(items))
    case Obj(ms) => RawObject(RawMembers(ms))
  }

  lemma {:induction false} NormalizeIsIdempotent(parse: Parser, value: Raw, field: JsString)
    requires Stable(parse) && NormalizeJson(parse, value, field).Ok?
    ensures NormalizeJson(parse, AsRaw(NormalizeJson(parse, value, field).value), field)
        == NormalizeJson(parse, value, field)
    decreases value
  {
    match value
    case RawArray(items) => NormalizeItemsIsIdempotent(parse, items, field, 0);
    case RawObject(ms) => NormalizeMembersIsIdempotent(parse, ms);
    case _ =>
  }

  lemma {:induction false} NormalizeItemsIsIdempotent(parse: Parser, items: seq<Raw>, field: JsString, index: nat)
    requires Stable(parse) && NormalizeItems(parse, items, field, index).Ok?
    ensures NormalizeItems(parse, RawItems(NormalizeItems(parse, items, field, index).value), field, index)
         == NormalizeItems(parse, items, field, index)
    decreases items
  {
    if items == [] {
    } else {
      NormalizeIsIdempotent(parse, items[0], ItemField(field, index));
      NormalizeItemsIsIdempotent(parse, items[1..], field, index + 1);
      var normal := NormalizeItems(parse, items, field, index).value;
      assert RawItems(normal)[1..] == RawItems(normal[1..]);
      assert normal[1..] == NormalizeItems(parse, items[1..], field, index + 1).value;
    }
  }

  lemma {:induction false} NormalizeMembersIsIdempotent(parse: Parser, ms: seq<Pair<Raw>>)
    requires Stable(parse) && NormalizeMembers(parse, ms).Ok?
    ensures NormalizeMembers(parse, RawMembers(NormalizeMembers(parse, ms).value)) == NormalizeMembers(parse, ms)
    decreases ms
  {
    if ms == [] {
    } else {
      NormalizeMembersIsIdempotent(parse, ms[1..]);
      if ms[0].val != Undefined {
        NormalizeIsIdempotent(parse, ms[0].val, ms[0].key);
        var normal := NormalizeMembers(parse, ms).value;
        assert RawMembers(normal)[1..] == RawMembers(normal[1..]);
        assert normal[1..] == NormalizeMembers(parse, ms[1..]).value;
      }
    }
  }

  // -- A JSON column -----------------------------------------------------------------------

  /** Serialising drops undefined members; what JSON does not know has no serial form here. */
  function SerializeItems(items: seq<Raw>): Option<seq<Json>>
    decreases items
  {
    if items == [] then Some([])
    else match (Serialize(items[0]), SerializeItems(items[1..]))
      case (Some(first), Some(rest)) => Some([first] + rest)
      case _ => None
  }

  function SerializeMembers(ms: seq<Pair<Raw>>): Option<seq<Pair<Json>>>
    decreases ms
  {
    if ms == [] then Some([])
    else if ms[0].val == Undefined then SerializeMembers(ms[1..])
    else match (Serialize(ms[0].val), SerializeMembers(ms[1..]))
      case (Some(first), Some(rest)) => Some([Pair(ms[0].key, first)] + rest)
      case _ => None
  }

  function Serialize(value: Raw): Option<Json>
    decreases value
  {
    match value
    case RawNull => Some(Null)
    case RawBool(b) => Some(Bool(b))
    case RawNumber(numeral) => if IsNumeral(numeral) then Some(Num(numeral)) else None
    case RawString(text) => Some(Str(text))
    case RawArray(items) =>
      (match SerializeItems(items) case None => None case Some(serial) => Some(Arr(serial)))
    case RawObject(ms) =>
      (match SerializeMembers(ms) case None => None case Some(serial) => Some(Obj(serial)))
    case Undefined => None
    case Odd => None
  }

  /** Whatever normalises has a serial form, and the serial form normalises to the same. */
  lemma {:induction false} SerialNormalizesAlike(parse: Parser, value: Raw, field: JsString)
    requires NormalizeJson(parse, value, field).Ok?
    ensures Serialize(value).Some?
    ensures NormalizeJson(parse, AsRaw(Serialize(value).value), field) == NormalizeJson(parse, value, field)
    decreases value
  {
    match value
    case RawArray(items) => SerialItemsNormalizeAlike(parse, items, field, 0);
    case RawObject(ms) => SerialMembersNormalizeAlike(parse, ms);
    case _ =>
  }

  lemma {:induction false} SerialItemsNormalizeAlike(parse: Parser, items: seq<Raw>, field: JsString, index: nat)
    requires NormalizeItems(parse, items, field, index).Ok?
    ensures SerializeItems(items).Some?
    ensures NormalizeItems(parse, RawItems(SerializeItems(items).value), field, index)
         == NormalizeItems(parse, items, field, index)
    decreases items
  {
    if items == [] {
    } else {
      SerialNormalizesAlike(parse, items[0], ItemField(field, index));
      SerialItemsNormalizeAlike(parse, items[1..], field, index + 1);
      var serial := SerializeItems(items).value;
      assert RawItems(serial)[1..] == RawItems(serial[1..]) && serial[1..] == SerializeItems(items[1..]).value;
    }
  }

  lemma {:induction false} SerialMembersNormalizeAlike(parse: Parser, ms: seq<Pair<Raw>>)
    requires NormalizeMembers(parse, ms).Ok?
    ensures SerializeMembers(ms).Some?
    ensures NormalizeMembers(parse, RawMembers(SerializeMembers(ms).value)) == NormalizeMembers(parse, ms)
    decreases ms
  {
    if ms == [] {
    } else {
      SerialMembersNormalizeAlike(parse, ms[1..]);
      if ms[0].val != Undefined {
        SerialNormalizesAlike(parse, ms[0].val, ms[0].key);
        var serial := SerializeMembers(ms).value;
        assert RawMembers(serial)[1..] == RawMembers(serial[1..]) && serial[1..] == SerializeMembers(ms[1..]).value;
      }
    }
  }

  /** Values whose objects have distinct keys, as every JavaScript object has. */
  predicate ProperRaw(value: Raw)
    decreases value
  {
    match value
    case RawArray(items) => forall i :: 0 <= i < |items| ==> ProperRaw(items[i])
    case RawObject(ms) => DistinctKeys(ms) && forall i :: 0 <= i < |ms| ==> ProperRaw(ms[i].val)
    case _ => true
  }

  lemma {:induction false} NormalIsWellFormed(parse: Parser, value: Raw, field: JsString)
    requires ProperRaw(value) && NormalizeJson(parse, value, field).Ok?
    ensures WellFormed(NormalizeJson(parse, value, field).value)
    decreases value
  {
    match value
    case RawArray(items) => NormalItemsAreWellFormed(parse, items, field, 0);
    case RawObject(ms) => NormalMembersAreWellFormed(parse, ms);
    case _ =>
  }

  lemma {:induction false} NormalItemsAreWellFormed(parse: Parser, items: seq<Raw>, field: JsString, index: nat)
    requires (forall i :: 0 <= i < |items| ==> ProperRaw(items[i])) && NormalizeItems(parse, items, field, index).Ok?
    ensures
      var normal := NormalizeItems(parse, items, field, index).value;
      forall i :: 0 <= i < |normal| ==> WellFormed(normal[i])
    decreases items
  {
    if items == [] {
    } else {
      NormalIsWellFormed(parse, items[0], ItemField(field, index));
      NormalItemsAreWellFormed(parse, items[1..], field, index + 1);
    }
  }

  lemma {:induction false} NormalMembersAreWellFormed(parse: Parser, ms: seq<Pair<Raw>>)
    requires (forall i :: 0 <= i < |ms| ==> ProperRaw(ms[i].val)) && DistinctKeys(ms)
    requires NormalizeMembers(parse, ms).Ok?
    ensures
      var normal := NormalizeMembers(parse, ms).value;
      && DistinctKeys(normal)
      && (forall i :: 0 <= i < |normal| ==> WellFormed(normal[i].val))
      && (forall i :: 0 <= i < |normal| ==> exists j :: 0 <= j < |ms| && ms[j].key == normal[i].key)
    decreases ms
  {
    if ms == [] {
    } else {
      NormalMembersAreWellFormed(parse, ms[1..]);
      var rest := NormalizeMembers(parse, ms[1..]).value;
      var normal := NormalizeMembers(parse, ms).value;
      forall i | 0 <= i < |rest| ensures rest[i].key != ms[0].key
        ensures exists j :: 0 <= j < |ms| && ms[j].key == rest[i].key
      {
        var j :| 0 <= j < |ms[1..]| && ms[1..][j].key == rest[i].key;
        assert ms[j + 1].key == rest[i].key;
      }
      if ms[0].val != Undefined {
        NormalIsWellFormed(parse, ms[0].val, ms[0].key);
        assert normal == [Pair(ms[0].key, normal[0].val)] + rest;
      }
    }
  }

  // -- Order of keys -----------------------------------------------------------------------

  function NormalOf(parse: Parser, v: Json, field: JsString): Result<Json, PayloadError> {
    NormalizeJson(parse, AsRaw(v), field)
  }

  lemma {:induction false} NormalMembersAt(parse: Parser, ms: seq<Pair<Json>>, i: nat)
    requires NormalizeMembers(parse, RawMembers(ms)).Ok? && i < |ms|
    ensures
      var normal := NormalizeMembers(parse, RawMembers(ms)).value;
      && |normal| == |ms| && NormalOf(parse, ms[i].val, ms[i].key).Ok?
      && normal[i] == Pair(ms[i].key, NormalOf(parse, ms[i].val, ms[i].key).value)
    decreases |ms|
  {
    assert RawMembers(ms)[1..] == RawMembers(ms[1..]);
    if i > 0 {
      NormalMembersAt(parse, ms[1..], i - 1);
    } else if |ms| > 1 {
      NormalMembersAt(parse, ms[1..], 0);
    }
  }

  lemma {:induction false} NormalMembersExist(parse: Parser, ms: seq<Pair<Json>>)
    requires forall i :: 0 <= i < |ms| ==> NormalOf(parse, ms[i].val, ms[i].key).Ok?
    ensures NormalizeMembers(parse, RawMembers(ms)).Ok?
    decreases |ms|
  {
    if ms == [] {
    } else {
      assert RawMembers(ms)[1..] == RawMembers(ms[1..]);
      assert NormalOf(parse, ms[0].val, ms[0].key).Ok?;
      forall i | 0 <= i < |ms[1..]| ensures NormalOf(parse, ms[1..][i].val, ms[1..][i].key).Ok? {
        assert ms[1..][i] == ms[i + 1];
      }
      NormalMembersExist(parse, ms[1..]);
    }
  }

  lemma {:induction false} NormalItemsAlike(parse: Parser, vs: seq<Json>, ws: seq<Json>, field: JsString, index: nat)
    requires (forall i :: 0 <= i < |vs| ==> WellFormed(vs[i])) && (forall i :: 0 <= i < |ws| ==> WellFormed(ws[i]))
    requires ItemMeanings(vs) == ItemMeanings(ws) && NormalizeItems(parse, RawItems(vs), field, index).Ok?
    ensures NormalizeItems(parse, RawItems(ws), field, index).Ok?
    ensures ItemMeanings(NormalizeItems(parse, RawItems(vs), field, index).value)
         == ItemMeanings(NormalizeItems(parse, RawItems(ws), field, index).value)
    decreases vs
  {
    assert |ItemMeanings(vs)| == |ItemMeanings(ws)|;
    if vs != [] {
      assert RawItems(vs)[1..] == RawItems(vs[1..]) && RawItems(ws)[1..] == RawItems(ws[1..]);
      assert ItemMeanings(vs)[0] == ItemMeanings(ws)[0] && ItemMeanings(vs)[1..] == ItemMeanings(ws)[1..];
      NormalRespectsMeaning(parse, vs[0], ws[0], ItemField(field, index));
      NormalItemsAlike(parse, vs[1..], ws[1..], field, index + 1);
      var a := NormalizeItems(parse, RawItems(vs), field, index).value;
      var b := NormalizeItems(parse, RawItems(ws), field, index).value;
      assert a[1..] == NormalizeItems(parse, RawItems(vs[1..]), field, index + 1).value;
      assert b[1..] == NormalizeItems(parse, RawItems(ws[1..]), field, index + 1).value;
    }
  }

  lemma SameKeySameMeaning(ms: seq<Pair<Json>>, ns: seq<Pair<Json>>, i: nat, j: nat)
    requires DistinctKeys(ms) && DistinctKeys(ns) && MemberMeanings(ms) == MemberMeanings(ns)
    requires i < |ms| && j < |ns| && ms[i].key == ns[j].key
    ensures MeaningOf(ms[i].val) == MeaningOf(ns[j].val)
  {
    MapOfAt(ms, i);
    MapOfAt(ns, j);
    MeaningsFollowMap(ms, ms[i].key);
    MeaningsFollowMap(ns, ns[j].key);
  }

  lemma Partner(ms: seq<Pair<Json>>, ns: seq<Pair<Json>>, j: nat) returns (i: nat)
    requires DistinctKeys(ms) && DistinctKeys(ns) && MemberMeanings(ms) == MemberMeanings(ns) && j < |ns|
    ensures i < |ms| && ms[i].key == ns[j].key && MeaningOf(ms[i].val) == MeaningOf(ns[j].val)
  {
    MapOfAt(ns, j);
    MeaningsFollowMap(ns, ns[j].key);
    MeaningsFollowMap(ms, ns[j].key);
    i := MemberOfMap(ms, ns[j].key);
  }

  lemma NormalKeys(parse: Parser, ms: seq<Pair<Json>>)
    requires NormalizeMembers(parse, RawMembers(ms)).Ok?
    ensures SameKeys(NormalizeMembers(parse, RawMembers(ms)).value, ms)
  {
    var normal := NormalizeMembers(parse, RawMembers(ms)).value;
    if ms == [] {
      assert normal == [];
    }
    forall i | 0 <= i < |ms| ensures |normal| == |ms| && normal[i].key == ms[i].key {
      NormalMembersAt(parse, ms, i);
    }
  }

  lemma SameKeysSameDomain<S, T>(a: seq<Pair<S>>, b: seq<Pair<T>>, key: JsString)
    requires SameKeys(a, b)
    ensures key in MapOf(a) <==> key in MapOf(b)
  {
    MapOfKeys(a, key);
    MapOfKeys(b, key);
    forall i | 0 <= i < |a| ensures a[i].key == b[i].key {}
  }

  lemma NormalDomain(parse: Parser, ms: seq<Pair<Json>>, key: JsString)
    requires NormalizeMembers(parse, RawMembers(ms)).Ok?
    ensures key in MemberMeanings(NormalizeMembers(parse, RawMembers(ms)).value) <==> key in MemberMeanings(ms)
  {
    var normal := NormalizeMembers(parse, RawMembers(ms)).value;
    NormalKeys(parse, ms);
    SameKeysSameDomain(normal, ms, key);
    MeaningsFollowMap(normal, key);
    MeaningsFollowMap(ms, key);
  }

  lemma MeaningAt(ms: seq<Pair<Json>>, i: nat)
    requires DistinctKeys(ms) && i < |ms|
    ensures ms[i].key in MemberMeanings(ms) && MemberMeanings(ms)[ms[i].key] == MeaningOf(ms[i].val)
  {
    MapOfAt(ms, i);
    MeaningsFollowMap(ms, ms[i].key);
  }

  lemma NormalIsDistinct(parse: Parser, ms: seq<Pair<Json>>)
    requires DistinctKeys(ms) && NormalizeMembers(parse, RawMembers(ms)).Ok?
    ensures DistinctKeys(NormalizeMembers(parse, RawMembers(ms)).value)
  {
    NormalKeys(parse, ms);
  }

  lemma NormalMeaningAt(parse: Parser, ms: seq<Pair<Json>>, i: nat)
    requires DistinctKeys(ms) && NormalizeMembers(parse, RawMembers(ms)).Ok? && i < |ms|
    ensures NormalOf(parse, ms[i].val, ms[i].key).Ok?
    ensures
      var meanings := MemberMeanings(NormalizeMembers(parse, RawMembers(ms)).value);
      && ms[i].key in meanings
      && meanings[ms[i].key] == MeaningOf(NormalOf(parse, ms[i].val, ms[i].key).value)
  {
    NormalIsDistinct(parse, ms);
    NormalMembersAt(parse, ms, i);
    MeaningAt(NormalizeMembers(parse, RawMembers(ms)).value, i);
  }

  lemma NormalRecordsAgree(parse: Parser, ms: seq<Pair<Json>>, ns: seq<Pair<Json>>)
    requires DistinctKeys(ms) && DistinctKeys(ns) && MemberMeanings(ms) == MemberMeanings(ns)
    requires NormalizeMembers(parse, RawMembers(ms)).Ok? && NormalizeMembers(parse, RawMembers(ns)).Ok?
    requires forall i, j :: 0 <= i < |ms| && 0 <= j < |ns| && ms[i].key == ns[j].key ==>
      && NormalOf(parse, ms[i].val, ms[i].key).Ok? && NormalOf(parse, ns[j].val, ms[i].key).Ok?
      && MeaningOf(NormalOf(parse, ms[i].val, ms[i].key).value)
          == MeaningOf(NormalOf(parse, ns[j].val, ms[i].key).value)
    ensures MemberMeanings(NormalizeMembers(parse, RawMembers(ms)).value)
         == MemberMeanings(NormalizeMembers(parse, RawMembers(ns)).value)
  {
    var a, b := NormalizeMembers(parse, RawMembers(ms)).value, NormalizeMembers(parse, RawMembers(ns)).value;
    forall key
      ensures key in MemberMeanings(a) <==> key in MemberMeanings(b)
      ensures key in MemberMeanings(a) ==> MemberMeanings(a)[key] == MemberMeanings(b)[key]
    {
      NormalDomain(parse, ms, key);
      NormalDomain(parse, ns, key);
      if key in MemberMeanings(ms) {
        MeaningsFollowMap(ms, key);
        MeaningsFollowMap(ns, key);
        var i := MemberOfMap(ms, key);
        var j := MemberOfMap(ns, key);
        NormalMeaningAt(parse, ms, i);
        NormalMeaningAt(parse, ns, j);
      }
    }
  }

  /** Values that say the same normalise alike, whatever the order of their keys. */
  lemma {:induction false} NormalRespectsMeaning(parse: Parser, v: Json, w: Json, field: JsString)
    requires WellFormed(v) && WellFormed(w) && MeaningOf(v) == MeaningOf(w)
    requires NormalOf(parse, v, field).Ok?
    ensures NormalOf(parse, w, field).Ok?
    ensures MeaningOf(NormalOf(parse, v, field).value) == MeaningOf(NormalOf(parse, w, field).value)
    decreases v
  {
    match v
    case Arr(items) => NormalItemsAlike(parse, items, w.items, field, 0);
    case Obj(ms) =>
      forall j | 0 <= j < |w.members|
        ensures NormalOf(parse, w.members[j].val, w.members[j].key).Ok?
      {
        var i := Partner(ms, w.members, j);
        NormalMembersAt(parse, ms, i);
        NormalRespectsMeaning(parse, ms[i].val, w.members[j].val, ms[i].key);
      }
      NormalMembersExist(parse, w.members);
      forall i, j | 0 <= i < |ms| && 0 <= j < |w.members| && ms[i].key == w.members[j].key
        ensures NormalOf(parse, ms[i].val, ms[i].key).Ok? && NormalOf(parse, w.members[j].val, ms[i].key).Ok?
        ensures MeaningOf(NormalOf(parse, ms[i].val, ms[i].key).value)
             == MeaningOf(NormalOf(parse, w.members[j].val, ms[i].key).value)
      {
        NormalMembersAt(parse, ms, i);
        SameKeySameMeaning(ms, w.members, i, j);
        NormalRespectsMeaning(parse, ms[i].val, w.members[j].val, ms[i].key);
      }
      NormalRecordsAgree(parse, ms, w.members);
    case _ =>
  }
}
