/** The canonical form of a fiscal payload, and the agreement of a command with the document stored for it. */
module FiscalForm {
  import opened Common
  import opened CanonicalJson
  import opened DecimalText
  import opened FiscalPayload
  import SD = ScaledDecimal

  // -- Inputs ------------------------------------------------------------------------------

  datatype LineInput = LineInput(
    lineNumber: int,
    cabysCode: JsString,
    description: JsString,
    unitMeasure: JsString,
    quantity: JsString,
    unitPrice: JsString,
    discountAmount: Option<JsString>,
    discountCode: Option<JsString>,
    discountNature: Option<JsString>,
    discountOther: Option<JsString>,
    taxAmount: Option<JsString>,
    taxCode: Option<JsString>,
    taxRateCode: Option<JsString>,
    taxRate: Option<JsString>)

  /** Null and undefined fields are both None; a receiver is an object. */
  datatype Input = Input(
    receiver: Option<seq<Pair<Raw>>>,
    currency: JsString,
    exchangeRate: Option<JsString>,
    saleCondition: JsString,
    creditTermDays: Option<int>,
    paymentMethod: Option<JsString>,
    lines: seq<LineInput>)

  predicate ProperInput(input: Input) {
    input.receiver.Some? ==> ProperRaw(RawObject(input.receiver.value))
  }

  // -- The canonical form ------------------------------------------------------------------

  const MAX_SAFE_INTEGER: int := 9007199254740991

  predicate WellFormedIfOk(r: Result<Json, PayloadError>) {
    r.Ok? ==> WellFormed(r.value)
  }

  function Text(value: JsString): (r: Result<Json, PayloadError>)
    ensures WellFormedIfOk(r)
  {
    if value == [] then Err(TextRequired) else Ok(Str(value))
  }

  function OptionalText(value: Option<JsString>): (r: Result<Json, PayloadError>)
    ensures WellFormedIfOk(r)
  {
    if value.None? then Ok(Null) else Text(value.value)
  }

  function AmountOf(value: JsString): Option<SD.ScaledDecimal> {
    match AsciiText(value)
    case None => None
    case Some(text) => SD.From(text)
  }

  function Decimal(value: JsString): (r: Result<Json, PayloadError>)
    ensures WellFormedIfOk(r)
  {
    match AmountOf(value)
    case None => Err(BadDecimal)
    case Some(amount) =>
      DecimalIsAscii(amount);
      Ok(Str(Units(SD.ToString(amount))))
  }

  function OptionalDecimal(value: Option<JsString>): (r: Result<Json, PayloadError>)
    ensures WellFormedIfOk(r)
  {
    if value.None? then Ok(Null) else Decimal(value.value)
  }

  lemma {:induction false} DigitsRun(s: string)
    requires AllDigits(s)
    ensures DigitRun(Units(s)) == |s|
    decreases |s|
  {
    if s == "" {
    } else {
      DigitsRun(s[1..]);
      assert Units(s)[1..] == Units(s[1..]);
    }
  }

  lemma DigitsAreUnsigned(n: nat)
    ensures IsUnsigned(Units(Digits(n)))
  {
    var t := Units(Digits(n));
    DigitsRun(Digits(n));
    DigitsLead(n);
    assert t[|t|..] == [];
  }

  lemma NumeralsAreNumerals(n: int)
    ensures IsNumeral(Units(IntegerText(n)))
  {
    if n < 0 {
      DigitsAreUnsigned(-n);
      assert Units(IntegerText(n))[1..] == Units(Digits(-n));
    } else {
      DigitsAreUnsigned(n);
      assert IsDigit(Digits(n)[0]);
    }
  }

  function Integer(value: int): (r: Result<Json, PayloadError>)
    ensures WellFormedIfOk(r)
  {
    NumeralsAreNumerals(value);
    if -MAX_SAFE_INTEGER <= value <= MAX_SAFE_INTEGER then Ok(Num(Units(IntegerText(value)))) else Err(BadInteger)
  }

  function OptionalInteger(value: Option<int>): (r: Result<Json, PayloadError>)
    ensures WellFormedIfOk(r)
  {
    if value.None? then Ok(Null) else Integer(value.value)
  }

  function Key(s: string): JsString
    requires IsAscii(s)
  {
    Units(s)
  }

  function Receiver(parse: Parser, receiver: Option<seq<Pair<Raw>>>): Result<Json, PayloadError> {
    NormalizeJson(parse, if receiver.None? then RawNull else RawObject(receiver.value), Key("receiver"))
  }

  const LINE_KEYS: seq<string> := [
    "lineNumber", "cabysCode", "description", "unitMeasure", "quantity", "unitPrice", "discountAmount",
    "discountCode", "discountNature", "discountOther", "taxAmount", "taxCode", "taxRateCode", "taxRate"]

  const PAYLOAD_KEYS: seq<string> := [
    "receiver", "currency", "exchangeRate", "saleCondition", "creditTermDays", "paymentMethod", "lines"]

  const OUTER_KEYS: seq<string> := ["contractVersion", "fiscalPayload"]

  const CONTRACT_VERSION := "fiscal-payload-equivalence.v1"

  function LineFields(line: LineInput): (r: seq<Result<Json, PayloadError>>)
    ensures forall i :: 0 <= i < |r| ==> WellFormedIfOk(r[i])
  {
    [ Integer(line.lineNumber), Text(line.cabysCode), Text(line.description), Text(line.unitMeasure),
      Decimal(line.quantity), Decimal(line.unitPrice), OptionalDecimal(line.discountAmount),
      OptionalText(line.discountCode), OptionalText(line.discountNature), OptionalText(line.discountOther),
      OptionalDecimal(line.taxAmount), OptionalText(line.taxCode), OptionalText(line.taxRateCode),
      OptionalDecimal(line.taxRate) ]
  }

  predicate AsciiKeys(keys: seq<string>) {
    forall i :: 0 <= i < |keys| ==> IsAscii(keys[i])
  }

  lemma KeysJoinAscii(first: seq<string>, second: seq<string>)
    requires AsciiKeys(first) && AsciiKeys(second)
    ensures AsciiKeys(first + second)
  {}

  lemma FirstLineKeysAreAscii()
    ensures AsciiKeys(LINE_KEYS[..7])
  {}

  lemma LastLineKeysAreAscii()
    ensures AsciiKeys(LINE_KEYS[7..])
  {}

  lemma LineKeysAreAscii()
    ensures AsciiKeys(LINE_KEYS)
  {
    FirstLineKeysAreAscii();
    LastLineKeysAreAscii();
    KeysJoinAscii(LINE_KEYS[..7], LINE_KEYS[7..]);
    assert LINE_KEYS == LINE_KEYS[..7] + LINE_KEYS[7..];
  }

  lemma PayloadKeysAreAscii()
    ensures AsciiKeys(PAYLOAD_KEYS)
  {}

  lemma OuterKeysAreAscii()
    ensures AsciiKeys(OUTER_KEYS)
  {}

  /** An object literal: the keys with their fields, unless a field fails. */
  function Fields(keys: seq<string>, fields: seq<Result<Json, PayloadError>>): Result<seq<Pair<Json>>, PayloadError>
    requires |keys| == |fields| && AsciiKeys(keys)
  {
    if keys == [] then Ok([])
    else match fields[0]
      case Err(error) => Err(error)
      case Ok(first) =>
        match Fields(keys[1..], fields[1..])
        case Err(error) => Err(error)
        case Ok(rest) => Ok([Pair(Key(keys[0]), first)] + rest)
  }

  function Object(keys: seq<string>, fields: seq<Result<Json, PayloadError>>): Result<Json, PayloadError>
    requires |keys| == |fields| && AsciiKeys(keys)
  {
    match Fields(keys, fields)
    case Err(error) => Err(error)
    case Ok(ms) => Ok(Obj(ms))
  }

  function CanonicalLine(line: LineInput): Result<Json, PayloadError> {
    LineKeysAreAscii();
    Object(LINE_KEYS, LineFields(line))
  }

  function CanonicalLines(lines: seq<LineInput>): Result<seq<Json>, PayloadError> {
    if lines == [] then Ok([])
    else match CanonicalLine(lines[0])
      case Err(error) => Err(error)
      case Ok(first) =>
        match CanonicalLines(lines[1..])
        case Err(error) => Err(error)
        case Ok(rest) => Ok([first] + rest)
  }

  function LinesField(lines: seq<LineInput>): Result<Json, PayloadError> {
    match CanonicalLines(lines)
    case Err(error) => Err(error)
    case Ok(items) => Ok(Arr(items))
  }

  function PayloadFields(parse: Parser, input: Input): seq<Result<Json, PayloadError>> {
    [ Receiver(parse, input.receiver), Text(input.currency), OptionalDecimal(input.exchangeRate),
      Text(input.saleCondition), OptionalInteger(input.creditTermDays), OptionalText(input.paymentMethod),
      LinesField(input.lines) ]
  }

  function InnerPayload(parse: Parser, input: Input): Result<Json, PayloadError> {
    PayloadKeysAreAscii();
    Object(PAYLOAD_KEYS, PayloadFields(parse, input))
  }

  function Versioned(inner: Result<Json, PayloadError>): seq<Result<Json, PayloadError>> {
    [Ok(Str(Units(CONTRACT_VERSION))), inner]
  }

  function CanonicalPayload(parse: Parser, input: Input): Result<Json, PayloadError> {
    OuterKeysAreAscii();
    Object(OUTER_KEYS, Versioned(InnerPayload(parse, input)))
  }

  function CanonicalString(parse: Parser, input: Input): Result<JsString, PayloadError> {
    match CanonicalPayload(parse, input)
    case Err(error) => Err(error)
    case Ok(json) => Ok(StableStringify(json))
  }

  /** SHA-256 is injective here: a hash holds what was hashed. */
  datatype PayloadHash = Sha256(text: JsString)

  function CanonicalHash(parse: Parser, input: Input): Result<PayloadHash, PayloadError> {
    match CanonicalString(parse, input)
    case Err(error) => Err(error)
    case Ok(text) => Ok(Sha256(text))
  }

  // -- Objects with fixed keys -------------------------------------------------------------

  predicate DistinctTexts(keys: seq<string>) {
    forall i, j :: 0 <= i < j < |keys| ==> keys[i] != keys[j]
  }

  lemma LineKeysAreDistinct()
    ensures DistinctTexts(LINE_KEYS)
  {}

  lemma PayloadKeysAreDistinct()
    ensures DistinctTexts(PAYLOAD_KEYS) && DistinctTexts(OUTER_KEYS)
  {}

  lemma {:induction false} FieldsAt(keys: seq<string>, fields: seq<Result<Json, PayloadError>>)
    requires |keys| == |fields| && AsciiKeys(keys)
    ensures Fields(keys, fields).Ok? <==> forall i :: 0 <= i < |fields| ==> fields[i].Ok?
    ensures Fields(keys, fields).Ok? ==>
              && |Fields(keys, fields).value| == |keys|
              && forall i :: 0 <= i < |keys| ==> Fields(keys, fields).value[i] == Pair(Key(keys[i]), fields[i].value)
  {
    if keys == [] {
    } else {
      FieldsAt(keys[1..], fields[1..]);
      if forall i :: 0 <= i < |fields| ==> fields[i].Ok? {
        assert forall i :: 0 <= i < |fields[1..]| ==> fields[1..][i] == fields[i + 1];
      } else if fields[0].Ok? {
        var i :| 0 <= i < |fields| && !fields[i].Ok?;
        assert fields[1..][i - 1] == fields[i];
      }
    }
  }

  lemma FieldKeysDistinct(keys: seq<string>, fields: seq<Result<Json, PayloadError>>)
    requires |keys| == |fields| && AsciiKeys(keys) && DistinctTexts(keys) && Fields(keys, fields).Ok?
    ensures DistinctKeys(Fields(keys, fields).value)
  {
    FieldsAt(keys, fields);
    var ms := Fields(keys, fields).value;
    forall i, j | 0 <= i < j < |ms| ensures ms[i].key != ms[j].key {
      if ms[i].key == ms[j].key {
        UnitsIsInjective(keys[i], keys[j]);
      }
    }
  }

  ghost predicate MeansSame(fs: seq<Result<Json, PayloadError>>, gs: seq<Result<Json, PayloadError>>, i: nat)
    requires i < |fs| && i < |gs|
  {
    fs[i].Ok? && gs[i].Ok? && MeaningOf(fs[i].value) == MeaningOf(gs[i].value)
  }

  ghost predicate AllMeanSame(fs: seq<Result<Json, PayloadError>>, gs: seq<Result<Json, PayloadError>>) {
    |fs| == |gs| && forall i :: 0 <= i < |fs| ==> MeansSame(fs, gs, i)
  }

  lemma FieldMeaning(ms: seq<Pair<Json>>, ns: seq<Pair<Json>>, key: JsString)
    requires DistinctKeys(ms) && DistinctKeys(ns) && SameKeys(ms, ns)
    requires forall i :: 0 <= i < |ms| ==> MeaningOf(ms[i].val) == MeaningOf(ns[i].val)
    ensures key in MemberMeanings(ms) <==> key in MemberMeanings(ns)
    ensures key in MemberMeanings(ms) ==> MemberMeanings(ms)[key] == MemberMeanings(ns)[key]
  {
    MeaningsFollowMap(ms, key);
    MeaningsFollowMap(ns, key);
    SameKeysSameDomain(ms, ns, key);
    if key in MapOf(ms) {
      var i := MemberOfMap(ms, key);
      MapOfAt(ns, i);
    }
  }

  /** Objects with the same fixed keys say the same exactly when their fields do. */
  lemma ObjectsAgree(keys: seq<string>, fs: seq<Result<Json, PayloadError>>, gs: seq<Result<Json, PayloadError>>)
    requires |keys| == |fs| == |gs| && AsciiKeys(keys) && DistinctTexts(keys)
    requires Object(keys, fs).Ok? && Object(keys, gs).Ok?
    ensures MeaningOf(Object(keys, fs).value) == MeaningOf(Object(keys, gs).value) <==> AllMeanSame(fs, gs)
  {
    FieldsAt(keys, fs);
    FieldsAt(keys, gs);
    FieldKeysDistinct(keys, fs);
    FieldKeysDistinct(keys, gs);
    var ms, ns := Fields(keys, fs).value, Fields(keys, gs).value;
    if MemberMeanings(ms) == MemberMeanings(ns) {
      forall i | 0 <= i < |keys| ensures MeansSame(fs, gs, i) {
        SameKeySameMeaning(ms, ns, i, i);
      }
    }
    if AllMeanSame(fs, gs) {
      forall i | 0 <= i < |ms| ensures MeaningOf(ms[i].val) == MeaningOf(ns[i].val) {
        assert MeansSame(fs, gs, i);
      }
      forall key
        ensures key in MemberMeanings(ms) <==> key in MemberMeanings(ns)
        ensures key in MemberMeanings(ms) ==> MemberMeanings(ms)[key] == MemberMeanings(ns)[key]
      {
        FieldMeaning(ms, ns, key);
      }
      assert MemberMeanings(ms) == MemberMeanings(ns);
    }
  }

  // -- Normal forms ------------------------------------------------------------------------

  datatype NormalLine = NormalLine(
    lineNumber: int,
    cabysCode: JsString,
    description: JsString,
    unitMeasure: JsString,
    quantity: SD.ScaledDecimal,
    unitPrice: SD.ScaledDecimal,
    discountAmount: Option<SD.ScaledDecimal>,
    discountCode: Option<JsString>,
    discountNature: Option<JsString>,
    discountOther: Option<JsString>,
    taxAmount: Option<SD.ScaledDecimal>,
    taxCode: Option<JsString>,
    taxRateCode: Option<JsString>,
    taxRate: Option<SD.ScaledDecimal>)

  /** What a payload says, field by field: amounts as numbers, texts as they are, the receiver as a meaning. */
  datatype NormalForm = NormalForm(
    receiver: Meaning,
    currency: JsString,
    exchangeRate: Option<SD.ScaledDecimal>,
    saleCondition: JsString,
    creditTermDays: Option<int>,
    paymentMethod: Option<JsString>,
    lines: seq<NormalLine>)

  function OptionalAmount(value: Option<JsString>): Option<SD.ScaledDecimal> {
    if value.None? then None else AmountOf(value.value)
  }

  lemma LineFieldsOk(line: LineInput)
    ensures CanonicalLine(line).Ok? <==> forall i :: 0 <= i < |LineFields(line)| ==> LineFields(line)[i].Ok?
    ensures CanonicalLine(line).Ok? ==> LineFields(line)[4].Ok? && LineFields(line)[5].Ok?
  {
    LineKeysAreAscii();
    FieldsAt(LINE_KEYS, LineFields(line));
  }

  function NormalLineOf(line: LineInput): NormalLine
    requires CanonicalLine(line).Ok?
  {
    LineFieldsOk(line);
    NormalLine(
      line.lineNumber, line.cabysCode, line.description, line.unitMeasure,
      AmountOf(line.quantity).value, AmountOf(line.unitPrice).value, OptionalAmount(line.discountAmount),
      line.discountCode, line.discountNature, line.discountOther,
      OptionalAmount(line.taxAmount), line.taxCode, line.taxRateCode, OptionalAmount(line.taxRate))
  }

  lemma TextsAgree(a: JsString, b: JsString)
    requires Text(a).Ok? && Text(b).Ok?
    ensures MeaningOf(Text(a).value) == MeaningOf(Text(b).value) <==> a == b
  {}

  lemma OptionalTextsAgree(a: Option<JsString>, b: Option<JsString>)
    requires OptionalText(a).Ok? && OptionalText(b).Ok?
    ensures MeaningOf(OptionalText(a).value) == MeaningOf(OptionalText(b).value) <==> a == b
  {}

  lemma DecimalsAgree(a: JsString, b: JsString)
    requires Decimal(a).Ok? && Decimal(b).Ok?
    ensures MeaningOf(Decimal(a).value) == MeaningOf(Decimal(b).value) <==> AmountOf(a) == AmountOf(b)
  {
    var x, y := AmountOf(a).value, AmountOf(b).value;
    DecimalIsAscii(x);
    DecimalIsAscii(y);
    if Units(SD.ToString(x)) == Units(SD.ToString(y)) {
      UnitsIsInjective(SD.ToString(x), SD.ToString(y));
      SD.TextRoundTrip(x);
      SD.TextRoundTrip(y);
    }
  }

  lemma OptionalDecimalsAgree(a: Option<JsString>, b: Option<JsString>)
    requires OptionalDecimal(a).Ok? && OptionalDecimal(b).Ok?
    ensures MeaningOf(OptionalDecimal(a).value) == MeaningOf(OptionalDecimal(b).value) <==>
        OptionalAmount(a) == OptionalAmount(b)
  {
    if a.Some? && b.Some? {
      DecimalsAgree(a.value, b.value);
    }
  }

  lemma IntegersAgree(a: int, b: int)
    requires Integer(a).Ok? && Integer(b).Ok?
    ensures MeaningOf(Integer(a).value) == MeaningOf(Integer(b).value) <==> a == b
  {
    if Units(IntegerText(a)) == Units(IntegerText(b)) {
      UnitsIsInjective(IntegerText(a), IntegerText(b));
      IntegerTextIsInjective(a, b);
    }
  }

  lemma OptionalIntegersAgree(a: Option<int>, b: Option<int>)
    requires OptionalInteger(a).Ok? && OptionalInteger(b).Ok?
    ensures MeaningOf(OptionalInteger(a).value) == MeaningOf(OptionalInteger(b).value) <==> a == b
  {
    if a.Some? && b.Some? {
      IntegersAgree(a.value, b.value);
    }
  }

  lemma RequiredFieldsAgree(a: LineInput, b: LineInput)
    requires CanonicalLine(a).Ok? && CanonicalLine(b).Ok?
    ensures
      var fs, gs := LineFields(a), LineFields(b);
      && (MeansSame(fs, gs, 0) <==> a.lineNumber == b.lineNumber)
      && (MeansSame(fs, gs, 1) <==> a.cabysCode == b.cabysCode)
      && (MeansSame(fs, gs, 2) <==> a.description == b.description)
      && (MeansSame(fs, gs, 3) <==> a.unitMeasure == b.unitMeasure)
      && (MeansSame(fs, gs, 4) <==> AmountOf(a.quantity) == AmountOf(b.quantity))
      && (MeansSame(fs, gs, 5) <==> AmountOf(a.unitPrice) == AmountOf(b.unitPrice))
  {
    var fs, gs := LineFields(a), LineFields(b);
    LineFieldsOk(a);
    LineFieldsOk(b);
    assert fs[0].Ok? && gs[0].Ok? && fs[1].Ok? && gs[1].Ok? && fs[2].Ok? && gs[2].Ok?;
    assert fs[3].Ok? && gs[3].Ok? && fs[4].Ok? && gs[4].Ok? && fs[5].Ok? && gs[5].Ok?;
    IntegersAgree(a.lineNumber, b.lineNumber);
    TextsAgree(a.cabysCode, b.cabysCode);
    TextsAgree(a.description, b.description);
    TextsAgree(a.unitMeasure, b.unitMeasure);
    DecimalsAgree(a.quantity, b.quantity);
    DecimalsAgree(a.unitPrice, b.unitPrice);
  }

  lemma OptionalFieldsAgree(a: LineInput, b: LineInput)
    requires CanonicalLine(a).Ok? && CanonicalLine(b).Ok?
    ensures
      var fs, gs := LineFields(a), LineFields(b);
      && (MeansSame(fs, gs, 6) <==> OptionalAmount(a.discountAmount) == OptionalAmount(b.discountAmount))
      && (MeansSame(fs, gs, 7) <==> a.discountCode == b.discountCode)
      && (MeansSame(fs, gs, 8) <==> a.discountNature == b.discountNature)
      && (MeansSame(fs, gs, 9) <==> a.discountOther == b.discountOther)
      && (MeansSame(fs, gs, 10) <==> OptionalAmount(a.taxAmount) == OptionalAmount(b.taxAmount))
      && (MeansSame(fs, gs, 11) <==> a.taxCode == b.taxCode)
      && (MeansSame(fs, gs, 12) <==> a.taxRateCode == b.taxRateCode)
      && (MeansSame(fs, gs, 13) <==> OptionalAmount(a.taxRate) == OptionalAmount(b.taxRate))
  {
    var fs, gs := LineFields(a), LineFields(b);
    LineFieldsOk(a);
    LineFieldsOk(b);
    assert fs[6].Ok? && gs[6].Ok? && fs[7].Ok? && gs[7].Ok? && fs[8].Ok? && gs[8].Ok? && fs[9].Ok? && gs[9].Ok?;
    assert fs[10].Ok? && gs[10].Ok? && fs[11].Ok? && gs[11].Ok? && fs[12].Ok? && gs[12].Ok? && fs[13].Ok? && gs[13].Ok?;
    OptionalDecimalsAgree(a.discountAmount, b.discountAmount);
    OptionalTextsAgree(a.discountCode, b.discountCode);
    OptionalTextsAgree(a.discountNature, b.discountNature);
    OptionalTextsAgree(a.discountOther, b.discountOther);
    OptionalDecimalsAgree(a.taxAmount, b.taxAmount);
    OptionalTextsAgree(a.taxCode, b.taxCode);
    OptionalTextsAgree(a.taxRateCode, b.taxRateCode);
    OptionalDecimalsAgree(a.taxRate, b.taxRate);
  }

  /** Fourteen fields, one by one. */
  lemma EachField(fs: seq<Result<Json, PayloadError>>, gs: seq<Result<Json, PayloadError>>)
    requires |fs| == |gs| == 14
    ensures AllMeanSame(fs, gs) <==>
              && MeansSame(fs, gs, 0) && MeansSame(fs, gs, 1) && MeansSame(fs, gs, 2) && MeansSame(fs, gs, 3)
              && MeansSame(fs, gs, 4) && MeansSame(fs, gs, 5) && MeansSame(fs, gs, 6) && MeansSame(fs, gs, 7)
              && MeansSame(fs, gs, 8) && MeansSame(fs, gs, 9) && MeansSame(fs, gs, 10) && MeansSame(fs, gs, 11)
              && MeansSame(fs, gs, 12) && MeansSame(fs, gs, 13)
  {}

  lemma AmountsExist(line: LineInput)
    requires CanonicalLine(line).Ok?
    ensures AmountOf(line.quantity).Some? && AmountOf(line.unitPrice).Some?
  {
    LineFieldsOk(line);
  }

  lemma LineFieldsAgree(a: LineInput, b: LineInput)
    requires CanonicalLine(a).Ok? && CanonicalLine(b).Ok?
    ensures AllMeanSame(LineFields(a), LineFields(b)) <==> NormalLineOf(a) == NormalLineOf(b)
  {
    EachField(LineFields(a), LineFields(b));
    RequiredFieldsAgree(a, b);
    OptionalFieldsAgree(a, b);
    AmountsExist(a);
    AmountsExist(b);
  }

  lemma LinesAgree(a: LineInput, b: LineInput)
    requires CanonicalLine(a).Ok? && CanonicalLine(b).Ok?
    ensures MeaningOf(CanonicalLine(a).value) == MeaningOf(CanonicalLine(b).value) <==>
        NormalLineOf(a) == NormalLineOf(b)
  {
    LineKeysAreAscii();
    LineKeysAreDistinct();
    ObjectsAgree(LINE_KEYS, LineFields(a), LineFields(b));
    LineFieldsAgree(a, b);
  }

  function NormalLines(lines: seq<LineInput>): seq<NormalLine>
    requires CanonicalLines(lines).Ok?
  {
    if lines == [] then [] else [NormalLineOf(lines[0])] + NormalLines(lines[1..])
  }

  lemma FirstAndRest<T>(x: T, y: T, xs: seq<T>, ys: seq<T>)
    ensures [x] + xs == [y] + ys <==> x == y && xs == ys
  {
    if [x] + xs == [y] + ys {
      assert ([x] + xs)[0] == ([y] + ys)[0];
      assert ([x] + xs)[1..] == xs && ([y] + ys)[1..] == ys;
    }
  }

  lemma {:induction false} LineCount(lines: seq<LineInput>)
    requires CanonicalLines(lines).Ok?
    ensures |CanonicalLines(lines).value| == |lines| && |NormalLines(lines)| == |lines|
  {
    if lines == [] {
    } else {
      LineCount(lines[1..]);
    }
  }

  lemma {:induction false} LineListsAgree(a: seq<LineInput>, b: seq<LineInput>)
    requires CanonicalLines(a).Ok? && CanonicalLines(b).Ok?
    ensures ItemMeanings(CanonicalLines(a).value) == ItemMeanings(CanonicalLines(b).value) <==>
        NormalLines(a) == NormalLines(b)
    decreases |a|
  {
    LineCount(a);
    LineCount(b);
    if a != [] && b != [] {
      LinesAgree(a[0], b[0]);
      LineListsAgree(a[1..], b[1..]);
      var x, y := CanonicalLines(a).value, CanonicalLines(b).value;
      assert x[1..] == CanonicalLines(a[1..]).value && y[1..] == CanonicalLines(b[1..]).value;
      FirstAndRest(MeaningOf(x[0]), MeaningOf(y[0]), ItemMeanings(x[1..]), ItemMeanings(y[1..]));
      FirstAndRest(NormalLineOf(a[0]), NormalLineOf(b[0]), NormalLines(a[1..]), NormalLines(b[1..]));
    }
  }

  lemma PayloadFieldsOk(parse: Parser, input: Input)
    requires CanonicalPayload(parse, input).Ok?
    ensures InnerPayload(parse, input).Ok?
    ensures forall i :: 0 <= i < |PayloadFields(parse, input)| ==> PayloadFields(parse, input)[i].Ok?
    ensures PayloadFields(parse, input)[0].Ok? && PayloadFields(parse, input)[6].Ok?
  {
    OuterKeysAreAscii();
    PayloadKeysAreAscii();
    FieldsAt(OUTER_KEYS, Versioned(InnerPayload(parse, input)));
    assert Versioned(InnerPayload(parse, input))[1].Ok?;
    FieldsAt(PAYLOAD_KEYS, PayloadFields(parse, input));
  }

  function NormalFormOf(parse: Parser, input: Input): NormalForm
    requires CanonicalPayload(parse, input).Ok?
  {
    PayloadFieldsOk(parse, input);
    NormalForm(
      MeaningOf(Receiver(parse, input.receiver).value), input.currency, OptionalAmount(input.exchangeRate),
      input.saleCondition, input.creditTermDays, input.paymentMethod, NormalLines(input.lines))
  }

  /** Seven fields, one by one. */
  lemma EachPayloadField(fs: seq<Result<Json, PayloadError>>, gs: seq<Result<Json, PayloadError>>)
    requires |fs| == |gs| == 7
    ensures AllMeanSame(fs, gs) <==>
              && MeansSame(fs, gs, 0) && MeansSame(fs, gs, 1) && MeansSame(fs, gs, 2) && MeansSame(fs, gs, 3)
              && MeansSame(fs, gs, 4) && MeansSame(fs, gs, 5) && MeansSame(fs, gs, 6)
  {}

  lemma PlainFieldsAgree(parse: Parser, a: Input, b: Input)
    requires CanonicalPayload(parse, a).Ok? && CanonicalPayload(parse, b).Ok?
    ensures
      var fs, gs := PayloadFields(parse, a), PayloadFields(parse, b);
      && (MeansSame(fs, gs, 1) <==> a.currency == b.currency)
      && (MeansSame(fs, gs, 2) <==> OptionalAmount(a.exchangeRate) == OptionalAmount(b.exchangeRate))
      && (MeansSame(fs, gs, 3) <==> a.saleCondition == b.saleCondition)
      && (MeansSame(fs, gs, 4) <==> a.creditTermDays == b.creditTermDays)
      && (MeansSame(fs, gs, 5) <==> a.paymentMethod == b.paymentMethod)
  {
    var fs, gs := PayloadFields(parse, a), PayloadFields(parse, b);
    PayloadFieldsOk(parse, a);
    PayloadFieldsOk(parse, b);
    assert fs[1].Ok? && gs[1].Ok? && fs[2].Ok? && gs[2].Ok? && fs[3].Ok? && gs[3].Ok?;
    assert fs[4].Ok? && gs[4].Ok? && fs[5].Ok? && gs[5].Ok?;
    TextsAgree(a.currency, b.currency);
    OptionalDecimalsAgree(a.exchangeRate, b.exchangeRate);
    TextsAgree(a.saleCondition, b.saleCondition);
    OptionalIntegersAgree(a.creditTermDays, b.creditTermDays);
    OptionalTextsAgree(a.paymentMethod, b.paymentMethod);
  }

  lemma NestedFieldsAgree(parse: Parser, a: Input, b: Input)
    requires CanonicalPayload(parse, a).Ok? && CanonicalPayload(parse, b).Ok?
    ensures
      var fs, gs := PayloadFields(parse, a), PayloadFields(parse, b);
      && (MeansSame(fs, gs, 0) <==> NormalFormOf(parse, a).receiver == NormalFormOf(parse, b).receiver)
      && (MeansSame(fs, gs, 6) <==> NormalFormOf(parse, a).lines == NormalFormOf(parse, b).lines)
  {
    PayloadFieldsOk(parse, a);
    PayloadFieldsOk(parse, b);
    LineListsAgree(a.lines, b.lines);
  }

  lemma PayloadFieldsAgree(parse: Parser, a: Input, b: Input)
    requires CanonicalPayload(parse, a).Ok? && CanonicalPayload(parse, b).Ok?
    ensures AllMeanSame(PayloadFields(parse, a), PayloadFields(parse, b)) <==>
        NormalFormOf(parse, a) == NormalFormOf(parse, b)
  {
    EachPayloadField(PayloadFields(parse, a), PayloadFields(parse, b));
    PlainFieldsAgree(parse, a, b);
    NestedFieldsAgree(parse, a, b);
  }

  lemma PayloadMeaningsAgree(parse: Parser, a: Input, b: Input)
    requires CanonicalPayload(parse, a).Ok? && CanonicalPayload(parse, b).Ok?
    ensures MeaningOf(CanonicalPayload(parse, a).value) == MeaningOf(CanonicalPayload(parse, b).value)
            <==> NormalFormOf(parse, a) == NormalFormOf(parse, b)
  {
    PayloadFieldsOk(parse, a);
    PayloadFieldsOk(parse, b);
    OuterKeysAreAscii();
    PayloadKeysAreAscii();
    PayloadKeysAreDistinct();
    var x, y := Versioned(InnerPayload(parse, a)), Versioned(InnerPayload(parse, b));
    ObjectsAgree(OUTER_KEYS, x, y);
    ObjectsAgree(PAYLOAD_KEYS, PayloadFields(parse, a), PayloadFields(parse, b));
    PayloadFieldsAgree(parse, a, b);
    assert MeansSame(x, y, 0);
    assert MeansSame(x, y, 1) <==> MeaningOf(x[1].value) == MeaningOf(y[1].value);
  }

  // -- Well-formed payloads ----------------------------------------------------------------

  lemma ObjectIsWellFormed(keys: seq<string>, fields: seq<Result<Json, PayloadError>>)
    requires |keys| == |fields| && AsciiKeys(keys) && DistinctTexts(keys) && Object(keys, fields).Ok?
    requires forall i :: 0 <= i < |fields| ==> WellFormedIfOk(fields[i])
    ensures WellFormed(Object(keys, fields).value)
  {
    FieldsAt(keys, fields);
    FieldKeysDistinct(keys, fields);
  }

  lemma LineIsWellFormed(line: LineInput)
    requires CanonicalLine(line).Ok?
    ensures WellFormed(CanonicalLine(line).value)
  {
    LineKeysAreAscii();
    LineKeysAreDistinct();
    ObjectIsWellFormed(LINE_KEYS, LineFields(line));
  }

  lemma {:induction false} LinesAreWellFormed(lines: seq<LineInput>)
    requires CanonicalLines(lines).Ok?
    ensures forall i :: 0 <= i < |CanonicalLines(lines).value| ==> WellFormed(CanonicalLines(lines).value[i])
  {
    if lines == [] {
    } else {
      LineIsWellFormed(lines[0]);
      LinesAreWellFormed(lines[1..]);
    }
  }

  lemma PayloadIsWellFormed(parse: Parser, input: Input)
    requires ProperInput(input) && CanonicalPayload(parse, input).Ok?
    ensures WellFormed(CanonicalPayload(parse, input).value)
  {
    PayloadFieldsOk(parse, input);
    OuterKeysAreAscii();
    PayloadKeysAreAscii();
    PayloadKeysAreDistinct();
    var fields := PayloadFields(parse, input);
    NormalIsWellFormed(parse, if input.receiver.None? then RawNull
        else RawObject(input.receiver.value), Key("receiver"));
    LinesAreWellFormed(input.lines);
    assert WellFormed(fields[0].value) && WellFormed(fields[6].value);
    ObjectIsWellFormed(PAYLOAD_KEYS, fields);
    ObjectIsWellFormed(OUTER_KEYS, Versioned(InnerPayload(parse, input)));
  }

  /** Equal hashes mean equal normal forms, and the other way round. */
  lemma HashesAgreeExactlyWithNormalForms(parse: Parser, a: Input, b: Input)
    requires ProperInput(a) && ProperInput(b) && CanonicalHash(parse, a).Ok? && CanonicalHash(parse, b).Ok?
    ensures CanonicalHash(parse, a) == CanonicalHash(parse, b) <==> NormalFormOf(parse, a) == NormalFormOf(parse, b)
  {
    PayloadIsWellFormed(parse, a);
    PayloadIsWellFormed(parse, b);
    TextsAgreeExactlyWithMeanings(CanonicalPayload(parse, a).value, CanonicalPayload(parse, b).value);
    PayloadMeaningsAgree(parse, a, b);
  }

  // -- Stored documents --------------------------------------------------------------------

  /** The columns of a stored document: JSON for the receiver, five exact fractional digits for the rate. */
  datatype StoredForm = StoredForm(
    receiverSnapshot: Option<Json>,
    currency: JsString,
    exchangeRate: Option<SD.ScaledDecimal>,
    saleCondition: JsString,
    creditTermDays: Option<int>,
    paymentMethod: Option<JsString>,
    lines: seq<LineInput>)

  function StripZeros(s: string): (r: string)
    ensures |r| <= |s| && (AllDigits(s) ==> AllDigits(r))
  {
    if s != "" && s[|s| - 1] == '0' then StripZeros(s[..|s| - 1]) else s
  }

  lemma {:induction false} StrippedZerosComeBack(s: string)
    ensures StripZeros(s) + Zeros(|s| - |StripZeros(s)|) == s
  {
    if s != "" && s[|s| - 1] == '0' {
      var front := s[..|s| - 1];
      StrippedZerosComeBack(front);
      var k := |front| - |StripZeros(front)|;
      assert Zeros(k + 1) == Zeros(k) + "0";
      assert StripZeros(front) + (Zeros(k) + "0") == (StripZeros(front) + Zeros(k)) + "0";
      assert s == front + "0";
    } else {
      assert Zeros(0) == "";
    }
  }

  lemma {:induction false} NoDotAnywhere(s: string)
    requires '.' !in s
    ensures SD.DotAt(s) == |s|
  {
    if s == "" {
    } else {
      NoDotAnywhere(s[1..]);
    }
  }

  lemma ColumnBody(whole: string, fraction: string)
    requires whole != "" && AllDigits(whole) && AllDigits(fraction) && |fraction| <= SD.SCALE
    ensures
      var body := if fraction == "" then whole else whole + "." + fraction;
      && body != "" && body[0] != '-'
      && SD.Magnitude(body) == Some(SD.Combined(whole, fraction))
  {
    SD.NoDot(whole);
    var body := if fraction == "" then whole else whole + "." + fraction;
    if fraction == "" {
      NoDotAnywhere(whole);
      assert whole[..|whole|] == whole;
    } else {
      SD.DotAfter(whole, fraction);
      assert body[..|whole|] == whole && body[|whole| + 1..] == fraction;
    }
    assert body[0] == whole[0];
    SD.MagnitudeOfParts(body, whole, fraction);
  }

  function ColumnDigits(d: SD.ScaledDecimal): string {
    var fraction := StripZeros(SD.Fraction(d));
    if fraction == "" then SD.Whole(d) else SD.Whole(d) + "." + fraction
  }

  lemma ColumnDigitsAreAscii(d: SD.ScaledDecimal)
    ensures IsAscii(ColumnDigits(d))
  {
    var whole, fraction := SD.Whole(d), StripZeros(SD.Fraction(d));
    assert forall i :: 0 <= i < |whole| ==> IsDigit(whole[i]);
    assert forall i :: 0 <= i < |fraction| ==> IsDigit(fraction[i]);
  }

  /** String(value) of a decimal column: no trailing zeros. */
  function ColumnText(d: SD.ScaledDecimal): (s: string)
    ensures IsAscii(s)
  {
    ColumnDigitsAreAscii(d);
    (if d.units < 0 then "-" else "") + ColumnDigits(d)
  }

  lemma PaddedBack(d: SD.ScaledDecimal)
    ensures SD.PadEnd(StripZeros(SD.Fraction(d))) == SD.Fraction(d)
  {
    StrippedZerosComeBack(SD.Fraction(d));
  }

  lemma ColumnDigitsRead(d: SD.ScaledDecimal)
    ensures ColumnDigits(d) != "" && ColumnDigits(d)[0] != '-'
    ensures SD.Magnitude(ColumnDigits(d)) == Some(SD.Abs(d))
  {
    ColumnBody(SD.Whole(d), StripZeros(SD.Fraction(d)));
    PaddedBack(d);
    SD.PartsMakeUp(d, StripZeros(SD.Fraction(d)));
  }

  lemma SignedReads(d: SD.ScaledDecimal, body: string)
    requires body != "" && body[0] != '-' && SD.Magnitude(body) == Some(SD.Abs(d))
    ensures SD.From((if d.units < 0 then "-" else "") + body) == Some(d)
  {
    SD.SignOfParts(d.units < 0, body);
  }

  lemma ColumnReadsBack(d: SD.ScaledDecimal)
    ensures AmountOf(Units(ColumnText(d))) == Some(d)
  {
    AsciiRoundTrip(ColumnText(d));
    ColumnDigitsRead(d);
    SignedReads(d, ColumnDigits(d));
  }

  function InputOfStored(doc: StoredForm): Result<Input, PayloadError> {
    if doc.receiverSnapshot.Some? && !doc.receiverSnapshot.value.Obj? then Err(StoredInvalid)
    else Ok(Input(
      if doc.receiverSnapshot.None? then None else Some(RawMembers(doc.receiverSnapshot.value.members)),
      doc.currency,
      if doc.exchangeRate.None? then None else Some(Units(ColumnText(doc.exchangeRate.value))),
      doc.saleCondition, doc.creditTermDays, doc.paymentMethod, doc.lines))
  }

  /** What the database may keep for a command: the receiver as JSON in any order of keys, the rate as a number. */
  ghost predicate Stores(doc: StoredForm, input: Input) {
    && (doc.receiverSnapshot.Some? <==> input.receiver.Some?)
    && (input.receiver.Some? ==>
          && SerializeMembers(input.receiver.value).Some?
          && doc.receiverSnapshot.value.Obj? && WellFormed(doc.receiverSnapshot.value)
          && MeaningOf(doc.receiverSnapshot.value) == MeaningOf(Obj(SerializeMembers(input.receiver.value).value)))
    && (doc.exchangeRate.Some? <==> input.exchangeRate.Some?)
    && doc.exchangeRate == OptionalAmount(input.exchangeRate)
    && doc.currency == input.currency && doc.saleCondition == input.saleCondition
    && doc.creditTermDays == input.creditTermDays && doc.paymentMethod == input.paymentMethod
    && doc.lines == input.lines
  }

  lemma {:induction false} SerialIsWellFormed(value: Raw)
    requires ProperRaw(value) && Serialize(value).Some?
    ensures WellFormed(Serialize(value).value)
    decreases value
  {
    match value
    case RawArray(items) => SerialItemsAreWellFormed(items);
    case RawObject(ms) => SerialMembersAreWellFormed(ms);
    case _ =>
  }

  lemma {:induction false} SerialItemsAreWellFormed(items: seq<Raw>)
    requires (forall i :: 0 <= i < |items| ==> ProperRaw(items[i])) && SerializeItems(items).Some?
    ensures forall i :: 0 <= i < |SerializeItems(items).value| ==> WellFormed(SerializeItems(items).value[i])
    decreases items
  {
    if items == [] {
    } else {
      SerialIsWellFormed(items[0]);
      SerialItemsAreWellFormed(items[1..]);
    }
  }

  lemma {:induction false} SerialMembersAreWellFormed(ms: seq<Pair<Raw>>)
    requires (forall i :: 0 <= i < |ms| ==> ProperRaw(ms[i].val)) && DistinctKeys(ms) && SerializeMembers(ms).Some?
    ensures
      var serial := SerializeMembers(ms).value;
      && DistinctKeys(serial)
      && (forall i :: 0 <= i < |serial| ==> WellFormed(serial[i].val))
      && (forall i :: 0 <= i < |serial| ==> exists j :: 0 <= j < |ms| && ms[j].key == serial[i].key)
    decreases ms
  {
    if ms == [] {
    } else {
      SerialMembersAreWellFormed(ms[1..]);
      var rest := SerializeMembers(ms[1..]).value;
      forall i | 0 <= i < |rest| ensures rest[i].key != ms[0].key
        ensures exists j :: 0 <= j < |ms| && ms[j].key == rest[i].key
      {
        var j :| 0 <= j < |ms[1..]| && ms[1..][j].key == rest[i].key;
        assert ms[j + 1].key == rest[i].key;
      }
      if ms[0].val != Undefined {
        SerialIsWellFormed(ms[0].val);
        var serial := SerializeMembers(ms).value;
        assert serial == [Pair(ms[0].key, serial[0].val)] + rest;
      }
    }
  }

  /** The stored receiver normalises as the receiver of the command does. */
  lemma StoredReceiverAgrees(parse: Parser, doc: StoredForm, input: Input)
    requires ProperInput(input) && Stores(doc, input) && Receiver(parse, input.receiver).Ok?
    ensures
      var stored := InputOfStored(doc);
      && stored.Ok? && Receiver(parse, stored.value.receiver).Ok?
      && MeaningOf(Receiver(parse, stored.value.receiver).value) == MeaningOf(Receiver(parse, input.receiver).value)
  {
    if input.receiver.Some? {
      var raw := RawObject(input.receiver.value);
      SerialNormalizesAlike(parse, raw, Key("receiver"));
      var serial := Serialize(raw).value;
      SerialIsWellFormed(raw);
      NormalRespectsMeaning(parse, serial, doc.receiverSnapshot.value, Key("receiver"));
      assert AsRaw(doc.receiverSnapshot.value) == RawObject(InputOfStored(doc).value.receiver.value);
    }
  }

  lemma StoredRateAgrees(doc: StoredForm, input: Input)
    requires Stores(doc, input) && OptionalDecimal(input.exchangeRate).Ok?
    ensures
      var stored := InputOfStored(doc);
      && stored.Ok? && OptionalDecimal(stored.value.exchangeRate).Ok?
      && OptionalAmount(stored.value.exchangeRate) == OptionalAmount(input.exchangeRate)
  {
    if doc.exchangeRate.Some? {
      ColumnReadsBack(doc.exchangeRate.value);
    }
  }

  lemma PayloadExists(parse: Parser, input: Input)
    requires forall i :: 0 <= i < |PayloadFields(parse, input)| ==> PayloadFields(parse, input)[i].Ok?
    ensures CanonicalPayload(parse, input).Ok?
  {
    OuterKeysAreAscii();
    PayloadKeysAreAscii();
    FieldsAt(PAYLOAD_KEYS, PayloadFields(parse, input));
    FieldsAt(OUTER_KEYS, Versioned(InnerPayload(parse, input)));
  }

  lemma OtherFieldsStay(parse: Parser, a: Input, b: Input)
    requires b == a.(receiver := b.receiver, exchangeRate := b.exchangeRate)
    ensures
      var fs, gs := PayloadFields(parse, a), PayloadFields(parse, b);
      gs[1] == fs[1] && gs[3] == fs[3] && gs[4] == fs[4] && gs[5] == fs[5] && gs[6] == fs[6]
  {}

  /** Another receiver and another rate that can be normalised leave a payload that exists. */
  lemma ReplacedFieldsExist(parse: Parser, a: Input, b: Input)
    requires CanonicalPayload(parse, a).Ok?
    requires b == a.(receiver := b.receiver, exchangeRate := b.exchangeRate)
    requires Receiver(parse, b.receiver).Ok? && OptionalDecimal(b.exchangeRate).Ok?
    ensures CanonicalPayload(parse, b).Ok?
  {
    PayloadFieldsOk(parse, a);
    OtherFieldsStay(parse, a, b);
    PayloadExists(parse, b);
  }

  lemma StoredFieldsExist(parse: Parser, doc: StoredForm, input: Input)
    requires ProperInput(input) && Stores(doc, input) && CanonicalPayload(parse, input).Ok?
    ensures InputOfStored(doc).Ok? && CanonicalPayload(parse, InputOfStored(doc).value).Ok?
    ensures NormalFormOf(parse, InputOfStored(doc).value) == NormalFormOf(parse, input)
  {
    PayloadFieldsOk(parse, input);
    assert PayloadFields(parse, input)[2].Ok?;
    StoredReceiverAgrees(parse, doc, input);
    StoredRateAgrees(doc, input);
    ReplacedFieldsExist(parse, input, InputOfStored(doc).value);
  }

  lemma {:induction false} RawItemsAt(items: seq<Json>, i: nat)
    requires i < |items|
    ensures RawItems(items)[i] == AsRaw(items[i])
    decreases |items|
  {
    if i == 0 {
    } else {
      RawItemsAt(items[1..], i - 1);
    }
  }

  lemma {:induction false} RawMembersAt(ms: seq<Pair<Json>>, i: nat)
    requires i < |ms|
    ensures RawMembers(ms)[i] == Pair(ms[i].key, AsRaw(ms[i].val))
    decreases |ms|
  {
    if i == 0 {
    } else {
      RawMembersAt(ms[1..], i - 1);
    }
  }

  lemma {:induction false} RawIsProper(v: Json)
    requires WellFormed(v)
    ensures ProperRaw(AsRaw(v))
    decreases v
  {
    match v
    case Arr(items) =>
      forall i | 0 <= i < |items| ensures RawItems(items)[i] == AsRaw(items[i]) && ProperRaw(RawItems(items)[i]) {
        RawItemsAt(items, i);
        RawIsProper(items[i]);
      }
    case Obj(ms) =>
      forall i | 0 <= i < |ms|
        ensures RawMembers(ms)[i].key == ms[i].key && ProperRaw(RawMembers(ms)[i].val)
      {
        RawMembersAt(ms, i);
        RawIsProper(ms[i].val);
      }
    case _ =>
  }

  lemma StoredIsProper(doc: StoredForm, input: Input)
    requires Stores(doc, input)
    ensures InputOfStored(doc).Ok? && ProperInput(InputOfStored(doc).value)
  {
    if doc.receiverSnapshot.Some? {
      RawIsProper(doc.receiverSnapshot.value);
    }
  }

  /** A stored document has the canonical form of the command it was created from, whenever that has one. */
  lemma StoredFormAgrees(parse: Parser, doc: StoredForm, input: Input)
    requires ProperInput(input) && Stores(doc, input) && CanonicalHash(parse, input).Ok?
    ensures InputOfStored(doc).Ok? && ProperInput(InputOfStored(doc).value)
    ensures CanonicalHash(parse, InputOfStored(doc).value) == CanonicalHash(parse, input)
  {
    StoredIsProper(doc, input);
    var stored := InputOfStored(doc).value;
    StoredFieldsExist(parse, doc, input);
    HashesAgreeExactlyWithNormalForms(parse, stored, input);
  }
}
