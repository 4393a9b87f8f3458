/**
 The canonical payload spelled out: which JSON a value normalises to, when a line and a payload are
 accepted, and what stands under each key of their canonical form.
 */
module FiscalPayloadMeaning {
  import opened Common
  import opened CanonicalJson
  import opened DecimalText
  import opened FiscalPayload
  import opened FiscalForm
  import SD = ScaledDecimal

  // -- Dates -------------------------------------------------------------------------------

  /** The name ends in at or in date, in capitals or not. */
  ghost predicate NamesDate(field: JsString) {
    var n := |field|;
    || (n >= 2 && field[n - 2] in {0x41, 0x61} && field[n - 1] in {0x54, 0x74})
    || (n >= 4 && field[n - 4] in {0x44, 0x64} && field[n - 3] in {0x41, 0x61} && field[n - 2] in {0x54, 0x74}
        && field[n - 1] in {0x45, 0x65})
  }

  ghost predicate DigitUnits(t: JsString) {
    forall i :: 0 <= i < |t| ==> 0x30 <= t[i] <= 0x39
  }

  ghost predicate DateParts(t: JsString, year: JsString, month: JsString, day: JsString) {
    && |year| == 4 && |month| == 2 && |day| == 2 && DigitUnits(year) && DigitUnits(month) && DigitUnits(day)
    && t == year + [0x2D] + month + [0x2D] + day
  }

  /** Four digits, two digits, two digits, with hyphens between them. */
  ghost predicate CalendarDate(t: JsString) {
    exists year, month, day :: DateParts(t, year, month, day)
  }

  lemma ShortSuffix(field: JsString, suffix: JsString)
    requires suffix == [0x61, 0x74]
    ensures EndsWithLower(field, suffix) <==>
              var n := |field|; n >= 2 && LowerUnit(field[n - 2]) == 0x61 && LowerUnit(field[n - 1]) == 0x74
  {
    var n := |field|;
    if n >= 2 {
      assert field[n - 2 + 0] == field[n - 2] && field[n - 2 + 1] == field[n - 1];
      assert suffix[0] == 0x61 && suffix[1] == 0x74;
    }
  }

  lemma LongSuffix(field: JsString, suffix: JsString)
    requires suffix == [0x64, 0x61, 0x74, 0x65]
    ensures EndsWithLower(field, suffix) <==>
              var n := |field|;
              n >= 4 && LowerUnit(field[n - 4]) == 0x64 && LowerUnit(field[n - 3]) == 0x61
              && LowerUnit(field[n - 2]) == 0x74 && LowerUnit(field[n - 1]) == 0x65
  {
    var n := |field|;
    if n >= 4 {
      assert field[n - 4 + 0] == field[n - 4] && field[n - 4 + 1] == field[n - 3];
      assert field[n - 4 + 2] == field[n - 2] && field[n - 4 + 3] == field[n - 1];
      assert suffix[0] == 0x64 && suffix[1] == 0x61 && suffix[2] == 0x74 && suffix[3] == 0x65;
    }
  }

  lemma DateFieldsAreNamed(field: JsString)
    ensures IsDateField(field) <==> NamesDate(field)
  {
    ShortSuffix(field, [0x61, 0x74]);
    LongSuffix(field, [0x64, 0x61, 0x74, 0x65]);
  }

  lemma PlainDatesAreCalendarDates(t: JsString)
    ensures IsPlainDate(t) <==> CalendarDate(t)
  {
    if IsPlainDate(t) {
      assert t == t[0..4] + [t[4]] + t[5..7] + [t[7]] + t[8..10];
      assert DateParts(t, t[0..4], t[5..7], t[8..10]);
    }
    if CalendarDate(t) {
      var year, month, day :| DateParts(t, year, month, day);
      assert |t| == 10;
      assert t[0..4] == year && t[5..7] == month && t[8..10] == day;
      assert t[0] == year[0] && t[1] == year[1] && t[2] == year[2] && t[3] == year[3];
      assert t[5] == month[0] && t[6] == month[1] && t[8] == day[0] && t[9] == day[1];
    }
  }

  // -- Values ------------------------------------------------------------------------------

  /** The members of an object whose value is not undefined. */
  ghost function Given(ms: seq<Pair<Raw>>): seq<Pair<Raw>> {
    if ms == [] then [] else (if ms[0].val == Undefined then [] else [ms[0]]) + Given(ms[1..])
  }

  /** The name of an item: the name of the array, and the index in brackets. */
  ghost function IndexName(field: JsString, index: nat): JsString {
    field + ([0x5B] + Units(Digits(index)) + [0x5D])
  }

  /**
   The JSON a value normalises to under a name. A text under a date name is a calendar date or becomes
   the time it denotes; an item goes by its index, a member by its key alone.
   */
  ghost predicate StandsFor(parse: Parser, value: Raw, field: JsString, j: Json)
    decreases j
  {
    match value
    case RawNull => j == Null
    case RawBool(b) => j == Bool(b)
    case RawNumber(numeral) => j == Num(numeral) && IsNumeral(numeral)
    case RawString(text) =>
      j.Str? && if NamesDate(field) && !CalendarDate(text) then parse(text) == Some(j.text) else j.text == text
    case RawArray(items) =>
      && j.Arr? && |j.items| == |items|
      && forall i :: 0 <= i < |j.items| ==> StandsFor(parse, items[i], IndexName(field, i), j.items[i])
    case RawObject(ms) =>
      && j.Obj? && |j.members| == |Given(ms)|
      && forall i :: 0 <= i < |j.members| ==>
           j.members[i].key == Given(ms)[i].key
           && StandsFor(parse, Given(ms)[i].val, Given(ms)[i].key, j.members[i].val)
    case Undefined => false
    case Odd => false
  }

  ghost predicate ItemsStand(parse: Parser, items: seq<Raw>, field: JsString, index: nat, js: seq<Json>) {
    |js| == |items| && forall i :: 0 <= i < |js| ==> StandsFor(parse, items[i], IndexName(field, index + i), js[i])
  }

  ghost predicate MembersStand(parse: Parser, given: seq<Pair<Raw>>, js: seq<Pair<Json>>) {
    && |js| == |given|
    && forall i :: 0 <= i < |js| ==>
         js[i].key == given[i].key && StandsFor(parse, given[i].val, given[i].key, js[i].val)
  }

  lemma NamesAgree(field: JsString, index: nat)
    ensures ItemField(field, index) == IndexName(field, index)
  {}

  lemma TextsStand(parse: Parser, text: JsString, field: JsString, j: Json)
    ensures NormalizeJson(parse, RawString(text), field) == Ok(j) <==> StandsFor(parse, RawString(text), field, j)
  {
    DateFieldsAreNamed(field);
    PlainDatesAreCalendarDates(text);
  }

  lemma {:induction false} NormalItemsStand(parse: Parser, items: seq<Raw>, field: JsString, index: nat, js: seq<Json>)
    ensures NormalizeItems(parse, items, field, index) == Ok(js) <==> ItemsStand(parse, items, field, index, js)
    decreases items
  {
    if items != [] {
      NamesAgree(field, index);
      if js != [] {
        NormalStandsFor(parse, items[0], ItemField(field, index), js[0]);
        NormalItemsStand(parse, items[1..], field, index + 1, js[1..]);
        assert js == [js[0]] + js[1..];
        if ItemsStand(parse, items, field, index, js) {
          forall i | 0 <= i < |js[1..]|
            ensures StandsFor(parse, items[1..][i], IndexName(field, index + 1 + i), js[1..][i])
          {
            assert StandsFor(parse, items[i + 1], IndexName(field, index + (i + 1)), js[i + 1]);
          }
        }
        if ItemsStand(parse, items[1..], field, index + 1, js[1..])
           && StandsFor(parse, items[0], ItemField(field, index), js[0]) {
          forall i | 0 <= i < |js| ensures StandsFor(parse, items[i], IndexName(field, index + i), js[i]) {
            if i > 0 {
              assert StandsFor(parse, items[1..][i - 1], IndexName(field, index + 1 + (i - 1)), js[1..][i - 1]);
            }
          }
        }
      }
    }
  }

  lemma MembersShift(parse: Parser, first: Pair<Raw>, rest: seq<Pair<Raw>>, js: seq<Pair<Json>>)
    requires js != []
    ensures MembersStand(parse, [first] + rest, js) <==>
              && js[0].key == first.key && StandsFor(parse, first.val, first.key, js[0].val)
              && MembersStand(parse, rest, js[1..])
  {
    var given := [first] + rest;
    if MembersStand(parse, given, js) {
      forall i | 0 <= i < |js[1..]|
        ensures js[1..][i].key == rest[i].key && StandsFor(parse, rest[i].val, rest[i].key, js[1..][i].val)
      {
        assert js[i + 1].key == given[i + 1].key && StandsFor(parse, given[i + 1].val, given[i + 1].key, js[i + 1].val);
      }
    }
    if js[0].key == first.key && StandsFor(parse, first.val, first.key, js[0].val)
       && MembersStand(parse, rest, js[1..]) {
      forall i | 0 <= i < |js|
        ensures js[i].key == given[i].key && StandsFor(parse, given[i].val, given[i].key, js[i].val)
      {
        if i > 0 {
          assert js[1..][i - 1].key == rest[i - 1].key
              && StandsFor(parse, rest[i - 1].val, rest[i - 1].key, js[1..][i - 1].val);
        }
      }
    }
  }

  lemma {:induction false} NormalMembersStand(parse: Parser, ms: seq<Pair<Raw>>, js: seq<Pair<Json>>)
    ensures NormalizeMembers(parse, ms) == Ok(js) <==> MembersStand(parse, Given(ms), js)
    decreases ms
  {
    if ms == [] {
    } else if ms[0].val == Undefined {
      NormalMembersStand(parse, ms[1..], js);
      assert Given(ms) == Given(ms[1..]);
    } else if js != [] {
      NormalStandsFor(parse, ms[0].val, ms[0].key, js[0].val);
      NormalMembersStand(parse, ms[1..], js[1..]);
      MembersShift(parse, ms[0], Given(ms[1..]), js);
      assert js == [js[0]] + js[1..];
      assert js[0] == Pair(js[0].key, js[0].val);
      assert NormalizeMembers(parse, ms) == Ok(js) ==>
          js[0].key == ms[0].key && NormalizeMembers(parse, ms[1..]) == Ok(js[1..]);
    }
  }

  /** A value normalises to the JSON that stands for it, and is refused exactly if there is none. */
  lemma {:induction false} NormalStandsFor(parse: Parser, value: Raw, field: JsString, j: Json)
    ensures NormalizeJson(parse, value, field) == Ok(j) <==> StandsFor(parse, value, field, j)
    decreases value
  {
    match value
    case RawString(text) => TextsStand(parse, text, field, j);
    case RawArray(items) =>
      if j.Arr? {
        NormalItemsStand(parse, items, field, 0, j.items);
        assert ItemsStand(parse, items, field, 0, j.items) <==> StandsFor(parse, value, field, j) by {
          assert forall i :: 0 <= i < |j.items| ==> IndexName(field, 0 + i) == IndexName(field, i);
        }
      }
    case RawObject(ms) =>
      if j.Obj? {
        NormalMembersStand(parse, ms, j.members);
        assert MembersStand(parse, Given(ms), j.members) <==> StandsFor(parse, value, field, j);
      }
    case _ =>
  }

  // -- Lines -------------------------------------------------------------------------------

  ghost predicate Named(p: Pair<Json>, key: string) {
    AsciiText(p.key) == Some(key)
  }

  ghost predicate SaysText(p: Pair<Json>, key: string, text: JsString) {
    Named(p, key) && text != [] && p.val == Str(text)
  }

  ghost predicate SaysOptionalText(p: Pair<Json>, key: string, text: Option<JsString>) {
    if text.None? then Named(p, key) && p.val == Null else SaysText(p, key, text.value)
  }

  /** A decimal is printed from the amount it denotes. */
  ghost predicate SaysAmount(p: Pair<Json>, key: string, text: JsString) {
    && Named(p, key) && p.val.Str?
    && exists ascii, amount ::
         && AsciiText(text) == Some(ascii) && SD.From(ascii) == Some(amount)
         && AsciiText(p.val.text) == Some(SD.ToString(amount))
  }

  ghost predicate SaysOptionalAmount(p: Pair<Json>, key: string, text: Option<JsString>) {
    if text.None? then Named(p, key) && p.val == Null else SaysAmount(p, key, text.value)
  }

  ghost predicate SaysInteger(p: Pair<Json>, key: string, n: int) {
    && Named(p, key) && -9007199254740991 <= n <= 9007199254740991
    && p.val.Num? && AsciiText(p.val.numeral) == Some(if n < 0 then "-" + Digits(-n) else Digits(n))
  }

  ghost predicate SaysOptionalInteger(p: Pair<Json>, key: string, n: Option<int>) {
    if n.None? then Named(p, key) && p.val == Null else SaysInteger(p, key, n.value)
  }

  /** The fourteen members of a canonical line. */
  ghost predicate LineSpelled(line: LineInput, ms: seq<Pair<Json>>) {
    && |ms| == 14
    && SaysInteger(ms[0], "lineNumber", line.lineNumber)
    && SaysText(ms[1], "cabysCode", line.cabysCode)
    && SaysText(ms[2], "description", line.description)
    && SaysText(ms[3], "unitMeasure", line.unitMeasure)
    && SaysAmount(ms[4], "quantity", line.quantity)
    && SaysAmount(ms[5], "unitPrice", line.unitPrice)
    && SaysOptionalAmount(ms[6], "discountAmount", line.discountAmount)
    && SaysOptionalText(ms[7], "discountCode", line.discountCode)
    && SaysOptionalText(ms[8], "discountNature", line.discountNature)
    && SaysOptionalText(ms[9], "discountOther", line.discountOther)
    && SaysOptionalAmount(ms[10], "taxAmount", line.taxAmount)
    && SaysOptionalText(ms[11], "taxCode", line.taxCode)
    && SaysOptionalText(ms[12], "taxRateCode", line.taxRateCode)
    && SaysOptionalAmount(ms[13], "taxRate", line.taxRate)
  }

  ghost predicate ReadableAmount(text: JsString) {
    AsciiText(text).Some? && SD.From(AsciiText(text).value).Some?
  }

  ghost predicate PresentOrNone(text: Option<JsString>) {
    text.Some? ==> text.value != []
  }

  ghost predicate ReadableOrNone(text: Option<JsString>) {
    text.Some? ==> ReadableAmount(text.value)
  }

  /** A line that has a canonical form. */
  ghost predicate LineAccepted(line: LineInput) {
    && -9007199254740991 <= line.lineNumber <= 9007199254740991
    && line.cabysCode != [] && line.description != [] && line.unitMeasure != []
    && ReadableAmount(line.quantity) && ReadableAmount(line.unitPrice)
    && ReadableOrNone(line.discountAmount) && ReadableOrNone(line.taxAmount) && ReadableOrNone(line.taxRate)
    && PresentOrNone(line.discountCode) && PresentOrNone(line.discountNature) && PresentOrNone(line.discountOther)
    && PresentOrNone(line.taxCode) && PresentOrNone(line.taxRateCode)
  }

  lemma TextSaid(p: Pair<Json>, key: string, text: JsString)
    requires Named(p, key) && FiscalForm.Text(text) == Ok(p.val)
    ensures SaysText(p, key, text)
  {}

  lemma OptionalTextSaid(p: Pair<Json>, key: string, text: Option<JsString>)
    requires Named(p, key) && OptionalText(text) == Ok(p.val)
    ensures SaysOptionalText(p, key, text)
  {}

  lemma AmountSaid(p: Pair<Json>, key: string, text: JsString)
    requires Named(p, key) && Decimal(text) == Ok(p.val)
    ensures SaysAmount(p, key, text)
  {
    var amount := AmountOf(text).value;
    DecimalIsAscii(amount);
    AsciiRoundTrip(SD.ToString(amount));
    assert SD.From(AsciiText(text).value) == Some(amount);
  }

  lemma OptionalAmountSaid(p: Pair<Json>, key: string, text: Option<JsString>)
    requires Named(p, key) && OptionalDecimal(text) == Ok(p.val)
    ensures SaysOptionalAmount(p, key, text)
  {
    if text.Some? {
      AmountSaid(p, key, text.value);
    }
  }

  lemma IntegerSaid(p: Pair<Json>, key: string, n: int)
    requires Named(p, key) && Integer(n) == Ok(p.val)
    ensures SaysInteger(p, key, n)
  {
    AsciiRoundTrip(IntegerText(n));
  }

  /** The member that an object literal has for one of its keys. */
  lemma MemberOfField(keys: seq<string>, fields: seq<Result<Json, PayloadError>>, i: nat)
    requires |keys| == |fields| && AsciiKeys(keys) && Fields(keys, fields).Ok? && i < |keys|
    ensures |Fields(keys, fields).value| == |keys|
    ensures Named(Fields(keys, fields).value[i], keys[i]) && fields[i] == Ok(Fields(keys, fields).value[i].val)
  {
    FieldsAt(keys, fields);
    AsciiRoundTrip(keys[i]);
  }

  lemma LineMember(line: LineInput, i: nat)
    requires CanonicalLine(line).Ok? && i < 14
    ensures CanonicalLine(line).value.Obj? && |CanonicalLine(line).value.members| == 14
    ensures Named(CanonicalLine(line).value.members[i], LINE_KEYS[i])
    ensures LineFields(line)[i] == Ok(CanonicalLine(line).value.members[i].val)
  {
    LineKeysAreAscii();
    MemberOfField(LINE_KEYS, LineFields(line), i);
  }

  lemma FirstLineMembers(line: LineInput)
    requires CanonicalLine(line).Ok?
    ensures CanonicalLine(line).value.Obj? && |CanonicalLine(line).value.members| == 14
    ensures
      var ms := CanonicalLine(line).value.members;
      && SaysInteger(ms[0], "lineNumber", line.lineNumber)
      && SaysText(ms[1], "cabysCode", line.cabysCode)
      && SaysText(ms[2], "description", line.description)
      && SaysText(ms[3], "unitMeasure", line.unitMeasure)
      && SaysAmount(ms[4], "quantity", line.quantity)
      && SaysAmount(ms[5], "unitPrice", line.unitPrice)
  {
    LineMember(line, 0);
    LineMember(line, 1);
    LineMember(line, 2);
    LineMember(line, 3);
    LineMember(line, 4);
    LineMember(line, 5);
    var ms := CanonicalLine(line).value.members;
    IntegerSaid(ms[0], "lineNumber", line.lineNumber);
    TextSaid(ms[1], "cabysCode", line.cabysCode);
    TextSaid(ms[2], "description", line.description);
    TextSaid(ms[3], "unitMeasure", line.unitMeasure);
    AmountSaid(ms[4], "quantity", line.quantity);
    AmountSaid(ms[5], "unitPrice", line.unitPrice);
  }

  lemma DiscountMembers(line: LineInput)
    requires CanonicalLine(line).Ok?
    ensures CanonicalLine(line).value.Obj? && |CanonicalLine(line).value.members| == 14
    ensures
      var ms := CanonicalLine(line).value.members;
      && SaysOptionalAmount(ms[6], "discountAmount", line.discountAmount)
      && SaysOptionalText(ms[7], "discountCode", line.discountCode)
      && SaysOptionalText(ms[8], "discountNature", line.discountNature)
      && SaysOptionalText(ms[9], "discountOther", line.discountOther)
  {
    LineMember(line, 6);
    LineMember(line, 7);
    LineMember(line, 8);
    LineMember(line, 9);
    var ms := CanonicalLine(line).value.members;
    OptionalAmountSaid(ms[6], "discountAmount", line.discountAmount);
    OptionalTextSaid(ms[7], "discountCode", line.discountCode);
    OptionalTextSaid(ms[8], "discountNature", line.discountNature);
    OptionalTextSaid(ms[9], "discountOther", line.discountOther);
  }

  lemma TaxMembers(line: LineInput)
    requires CanonicalLine(line).Ok?
    ensures CanonicalLine(line).value.Obj? && |CanonicalLine(line).value.members| == 14
    ensures
      var ms := CanonicalLine(line).value.members;
      && SaysOptionalAmount(ms[10], "taxAmount", line.taxAmount)
      && SaysOptionalText(ms[11], "taxCode", line.taxCode)
      && SaysOptionalText(ms[12], "taxRateCode", line.taxRateCode)
      && SaysOptionalAmount(ms[13], "taxRate", line.taxRate)
  {
    LineMember(line, 10);
    LineMember(line, 11);
    LineMember(line, 12);
    LineMember(line, 13);
    var ms := CanonicalLine(line).value.members;
    OptionalAmountSaid(ms[10], "taxAmount", line.taxAmount);
    OptionalTextSaid(ms[11], "taxCode", line.taxCode);
    OptionalTextSaid(ms[12], "taxRateCode", line.taxRateCode);
    OptionalAmountSaid(ms[13], "taxRate", line.taxRate);
  }

  lemma EachIsOk(fs: seq<Result<Json, PayloadError>>)
    requires |fs| == 14
    ensures (forall i :: 0 <= i < 14 ==> fs[i].Ok?) <==>
              && fs[0].Ok? && fs[1].Ok? && fs[2].Ok? && fs[3].Ok? && fs[4].Ok? && fs[5].Ok? && fs[6].Ok?
              && fs[7].Ok? && fs[8].Ok? && fs[9].Ok? && fs[10].Ok? && fs[11].Ok? && fs[12].Ok? && fs[13].Ok?
  {}

  lemma IntegerIsOk(n: int)
    ensures Integer(n).Ok? <==> -9007199254740991 <= n <= 9007199254740991
  {}

  lemma DecimalIsOk(text: JsString)
    ensures Decimal(text).Ok? <==> ReadableAmount(text)
  {}

  lemma RequiredAreOk(line: LineInput)
    ensures
      var fs := LineFields(line);
      && (fs[0].Ok? <==> -9007199254740991 <= line.lineNumber <= 9007199254740991)
      && (fs[1].Ok? <==> line.cabysCode != []) && (fs[2].Ok? <==> line.description != [])
      && (fs[3].Ok? <==> line.unitMeasure != [])
      && (fs[4].Ok? <==> ReadableAmount(line.quantity)) && (fs[5].Ok? <==> ReadableAmount(line.unitPrice))
  {
    IntegerIsOk(line.lineNumber);
    DecimalIsOk(line.quantity);
    DecimalIsOk(line.unitPrice);
    assert LineFields(line)[0] == Integer(line.lineNumber);
    assert LineFields(line)[4] == Decimal(line.quantity) && LineFields(line)[5] == Decimal(line.unitPrice);
  }

  lemma OptionalTextIsOk(text: Option<JsString>)
    ensures OptionalText(text).Ok? <==> PresentOrNone(text)
  {}

  lemma OptionalDecimalIsOk(text: Option<JsString>)
    ensures OptionalDecimal(text).Ok? <==> ReadableOrNone(text)
  {}

  lemma DiscountListed(line: LineInput)
    ensures LineFields(line)[6] == OptionalDecimal(line.discountAmount)
    ensures LineFields(line)[7] == OptionalText(line.discountCode)
  {}

  lemma DiscountTextsListed(line: LineInput)
    ensures LineFields(line)[8] == OptionalText(line.discountNature)
    ensures LineFields(line)[9] == OptionalText(line.discountOther)
  {}

  lemma TaxListed(line: LineInput)
    ensures
      var fs := LineFields(line);
      && fs[10] == OptionalDecimal(line.taxAmount) && fs[11] == OptionalText(line.taxCode)
      && fs[12] == OptionalText(line.taxRateCode) && fs[13] == OptionalDecimal(line.taxRate)
  {}

  lemma OptionalAreOk(line: LineInput)
    ensures
      var fs := LineFields(line);
      && (fs[6].Ok? <==> ReadableOrNone(line.discountAmount)) && (fs[7].Ok? <==> PresentOrNone(line.discountCode))
      && (fs[8].Ok? <==> PresentOrNone(line.discountNature)) && (fs[9].Ok? <==> PresentOrNone(line.discountOther))
      && (fs[10].Ok? <==> ReadableOrNone(line.taxAmount)) && (fs[11].Ok? <==> PresentOrNone(line.taxCode))
      && (fs[12].Ok? <==> PresentOrNone(line.taxRateCode)) && (fs[13].Ok? <==> ReadableOrNone(line.taxRate))
  {
    DiscountListed(line);
    DiscountTextsListed(line);
    TaxListed(line);
    OptionalDecimalIsOk(line.discountAmount);
    OptionalTextIsOk(line.discountCode);
    OptionalTextIsOk(line.discountNature);
    OptionalTextIsOk(line.discountOther);
    OptionalDecimalIsOk(line.taxAmount);
    OptionalTextIsOk(line.taxCode);
    OptionalTextIsOk(line.taxRateCode);
    OptionalDecimalIsOk(line.taxRate);
  }

  lemma AcceptedFields(line: LineInput)
    ensures LineAccepted(line) <==> forall i :: 0 <= i < |LineFields(line)| ==> LineFields(line)[i].Ok?
  {
    EachIsOk(LineFields(line));
    RequiredAreOk(line);
    OptionalAreOk(line);
  }

  lemma LineAcceptance(line: LineInput)
    ensures CanonicalLine(line).Ok? <==> LineAccepted(line)
  {
    LineFieldsOk(line);
    AcceptedFields(line);
  }

  /** When a line has a canonical form, and what it says under each of its keys. */
  lemma LineIsSpelledOut(line: LineInput)
    ensures CanonicalLine(line).Ok? <==> LineAccepted(line)
    ensures CanonicalLine(line).Ok? ==>
              CanonicalLine(line).value.Obj? && LineSpelled(line, CanonicalLine(line).value.members)
  {
    LineAcceptance(line);
    if CanonicalLine(line).Ok? {
      FirstLineMembers(line);
      DiscountMembers(line);
      TaxMembers(line);
    }
  }

  // -- Payloads ----------------------------------------------------------------------------

  /** Each of the lines is accepted. */
  ghost predicate AllAccepted(lines: seq<LineInput>) {
    lines == [] || (LineAccepted(lines[0]) && AllAccepted(lines[1..]))
  }

  lemma LinesOneByOne(lines: seq<LineInput>)
    requires lines != []
    ensures CanonicalLines(lines).Ok? <==> CanonicalLine(lines[0]).Ok? && CanonicalLines(lines[1..]).Ok?
    ensures CanonicalLines(lines).Ok? ==>
              CanonicalLines(lines).value == [CanonicalLine(lines[0]).value] + CanonicalLines(lines[1..]).value
  {}

  lemma {:induction false} LinesAcceptance(lines: seq<LineInput>)
    ensures CanonicalLines(lines).Ok? <==> AllAccepted(lines)
  {
    if lines == [] {
    } else {
      LineAcceptance(lines[0]);
      LinesAcceptance(lines[1..]);
      LinesOneByOne(lines);
    }
  }

  lemma {:induction false} LinesAt(lines: seq<LineInput>, i: nat)
    requires CanonicalLines(lines).Ok? && i < |lines|
    ensures |CanonicalLines(lines).value| == |lines|
    ensures CanonicalLine(lines[i]) == Ok(CanonicalLines(lines).value[i])
    decreases i
  {
    LineCount(lines);
    LinesOneByOne(lines);
    if i > 0 {
      LinesAt(lines[1..], i - 1);
    }
  }

  lemma LinesAreSpelledOut(lines: seq<LineInput>, i: nat)
    requires CanonicalLines(lines).Ok? && i < |lines|
    ensures |CanonicalLines(lines).value| == |lines| && CanonicalLines(lines).value[i].Obj?
    ensures LineSpelled(lines[i], CanonicalLines(lines).value[i].members)
  {
    LinesAt(lines, i);
    LineIsSpelledOut(lines[i]);
  }

  ghost function ReceiverValue(input: Input): Raw {
    match input.receiver case None => RawNull case Some(ms) => RawObject(ms)
  }

  ghost predicate CanNormalize(parse: Parser, value: Raw, field: JsString) {
    exists j :: StandsFor(parse, value, field, j)
  }

  ghost predicate LinesSpelled(lines: seq<LineInput>, j: Json) {
    && j.Arr? && |j.items| == |lines|
    && forall i :: 0 <= i < |lines| ==> j.items[i].Obj? && LineSpelled(lines[i], j.items[i].members)
  }

  /** The seven members of the inner payload. */
  ghost predicate PayloadSpelled(parse: Parser, input: Input, ms: seq<Pair<Json>>) {
    && |ms| == 7
    && Named(ms[0], "receiver") && StandsFor(parse, ReceiverValue(input), ms[0].key, ms[0].val)
    && SaysText(ms[1], "currency", input.currency)
    && SaysOptionalAmount(ms[2], "exchangeRate", input.exchangeRate)
    && SaysText(ms[3], "saleCondition", input.saleCondition)
    && SaysOptionalInteger(ms[4], "creditTermDays", input.creditTermDays)
    && SaysOptionalText(ms[5], "paymentMethod", input.paymentMethod)
    && Named(ms[6], "lines") && LinesSpelled(input.lines, ms[6].val)
  }

  ghost predicate CanonicalSpelled(parse: Parser, input: Input, j: Json) {
    && j.Obj? && |j.members| == 2
    && Named(j.members[0], "contractVersion") && j.members[0].val.Str?
    && AsciiText(j.members[0].val.text) == Some("fiscal-payload-equivalence.v1")
    && Named(j.members[1], "fiscalPayload") && j.members[1].val.Obj?
    && PayloadSpelled(parse, input, j.members[1].val.members)
  }

  /** A payload that has a canonical form. */
  ghost predicate PayloadAccepted(parse: Parser, input: Input) {
    && CanNormalize(parse, ReceiverValue(input), Key("receiver"))
    && input.currency != [] && input.saleCondition != [] && PresentOrNone(input.paymentMethod)
    && ReadableOrNone(input.exchangeRate)
    && (input.creditTermDays.Some? ==> -9007199254740991 <= input.creditTermDays.value <= 9007199254740991)
    && AllAccepted(input.lines)
  }

  lemma PayloadMember(parse: Parser, input: Input, i: nat)
    requires CanonicalPayload(parse, input).Ok? && i < 7
    ensures InnerPayload(parse, input).Ok? && InnerPayload(parse, input).value.Obj?
    ensures |InnerPayload(parse, input).value.members| == 7
    ensures Named(InnerPayload(parse, input).value.members[i], PAYLOAD_KEYS[i])
    ensures InnerPayload(parse, input).value.members[i].key == Key(PAYLOAD_KEYS[i])
    ensures PayloadFields(parse, input)[i] == Ok(InnerPayload(parse, input).value.members[i].val)
  {
    PayloadFieldsOk(parse, input);
    PayloadKeysAreAscii();
    MemberOfField(PAYLOAD_KEYS, PayloadFields(parse, input), i);
    FieldsAt(PAYLOAD_KEYS, PayloadFields(parse, input));
  }

  lemma PlainPayloadMembers(parse: Parser, input: Input)
    requires CanonicalPayload(parse, input).Ok?
    ensures InnerPayload(parse, input).Ok? && InnerPayload(parse, input).value.Obj?
    ensures |InnerPayload(parse, input).value.members| == 7
    ensures
      var ms := InnerPayload(parse, input).value.members;
      && SaysText(ms[1], "currency", input.currency)
      && SaysOptionalAmount(ms[2], "exchangeRate", input.exchangeRate)
      && SaysText(ms[3], "saleCondition", input.saleCondition)
      && SaysOptionalInteger(ms[4], "creditTermDays", input.creditTermDays)
      && SaysOptionalText(ms[5], "paymentMethod", input.paymentMethod)
  {
    PayloadMember(parse, input, 1);
    PayloadMember(parse, input, 2);
    PayloadMember(parse, input, 3);
    PayloadMember(parse, input, 4);
    PayloadMember(parse, input, 5);
    var ms := InnerPayload(parse, input).value.members;
    TextSaid(ms[1], "currency", input.currency);
    OptionalAmountSaid(ms[2], "exchangeRate", input.exchangeRate);
    TextSaid(ms[3], "saleCondition", input.saleCondition);
    if input.creditTermDays.Some? {
      IntegerSaid(ms[4], "creditTermDays", input.creditTermDays.value);
    }
    OptionalTextSaid(ms[5], "paymentMethod", input.paymentMethod);
  }

  lemma NestedPayloadMembers(parse: Parser, input: Input)
    requires CanonicalPayload(parse, input).Ok?
    ensures InnerPayload(parse, input).Ok? && InnerPayload(parse, input).value.Obj?
    ensures |InnerPayload(parse, input).value.members| == 7
    ensures
      var ms := InnerPayload(parse, input).value.members;
      && Named(ms[0], "receiver") && StandsFor(parse, ReceiverValue(input), ms[0].key, ms[0].val)
      && Named(ms[6], "lines") && LinesSpelled(input.lines, ms[6].val)
  {
    PayloadMember(parse, input, 0);
    PayloadMember(parse, input, 6);
    var ms := InnerPayload(parse, input).value.members;
    NormalStandsFor(parse, ReceiverValue(input), Key("receiver"), ms[0].val);
    LineCount(input.lines);
    forall i | 0 <= i < |input.lines|
      ensures ms[6].val.items[i].Obj? && LineSpelled(input.lines[i], ms[6].val.items[i].members)
    {
      LinesAreSpelledOut(input.lines, i);
    }
  }

  lemma InnerIsSpelledOut(parse: Parser, input: Input)
    requires CanonicalPayload(parse, input).Ok?
    ensures InnerPayload(parse, input).Ok? && InnerPayload(parse, input).value.Obj?
    ensures PayloadSpelled(parse, input, InnerPayload(parse, input).value.members)
  {
    PlainPayloadMembers(parse, input);
    NestedPayloadMembers(parse, input);
  }

  /** The two members around the payload. */
  lemma OuterMembers(inner: Result<Json, PayloadError>) returns (ms: seq<Pair<Json>>)
    requires inner.Ok?
    ensures AsciiKeys(OUTER_KEYS) && Object(OUTER_KEYS, Versioned(inner)) == Ok(Obj(ms)) && |ms| == 2
    ensures Named(ms[0], "contractVersion") && ms[0].val.Str?
    ensures AsciiText(ms[0].val.text) == Some("fiscal-payload-equivalence.v1")
    ensures Named(ms[1], "fiscalPayload") && ms[1].val == inner.value
  {
    OuterKeysAreAscii();
    var fields := Versioned(inner);
    FieldsAt(OUTER_KEYS, fields);
    ms := Fields(OUTER_KEYS, fields).value;
    MemberOfField(OUTER_KEYS, fields, 0);
    MemberOfField(OUTER_KEYS, fields, 1);
    AsciiRoundTrip(CONTRACT_VERSION);
  }

  /** What the canonical payload says under each of its keys. */
  lemma PayloadIsSpelledOut(parse: Parser, input: Input)
    requires CanonicalPayload(parse, input).Ok?
    ensures CanonicalSpelled(parse, input, CanonicalPayload(parse, input).value)
  {
    InnerIsSpelledOut(parse, input);
    var ms := OuterMembers(InnerPayload(parse, input));
  }

  ghost predicate AllOk(fs: seq<Result<Json, PayloadError>>) {
    forall i :: 0 <= i < |fs| ==> fs[i].Ok?
  }

  lemma SevenAreOk(fs: seq<Result<Json, PayloadError>>)
    requires |fs| == 7
    ensures AllOk(fs) <==>
              fs[0].Ok? && fs[1].Ok? && fs[2].Ok? && fs[3].Ok? && fs[4].Ok? && fs[5].Ok? && fs[6].Ok?
  {}

  lemma PlainAreOk(parse: Parser, input: Input)
    ensures
      var fs := PayloadFields(parse, input);
      && (fs[1].Ok? <==> input.currency != []) && (fs[2].Ok? <==> ReadableOrNone(input.exchangeRate))
      && (fs[3].Ok? <==> input.saleCondition != []) && (fs[5].Ok? <==> PresentOrNone(input.paymentMethod))
      && (fs[4].Ok? <==>
            (input.creditTermDays.Some? ==> -9007199254740991 <= input.creditTermDays.value <= 9007199254740991))
  {}

  lemma ReceiverIsOk(parse: Parser, input: Input)
    ensures Receiver(parse, input.receiver).Ok? <==> CanNormalize(parse, ReceiverValue(input), Key("receiver"))
  {
    var normal := Receiver(parse, input.receiver);
    assert normal == NormalizeJson(parse, ReceiverValue(input), Key("receiver"));
    if normal.Ok? {
      NormalStandsFor(parse, ReceiverValue(input), Key("receiver"), normal.value);
    }
    if CanNormalize(parse, ReceiverValue(input), Key("receiver")) {
      var j :| StandsFor(parse, ReceiverValue(input), Key("receiver"), j);
      NormalStandsFor(parse, ReceiverValue(input), Key("receiver"), j);
    }
  }

  lemma NestedAreOk(parse: Parser, input: Input)
    ensures
      var fs := PayloadFields(parse, input);
      && (fs[0].Ok? <==> Receiver(parse, input.receiver).Ok?)
      && (fs[6].Ok? <==> CanonicalLines(input.lines).Ok?)
  {}

  lemma PayloadIsOk(parse: Parser, input: Input)
    ensures CanonicalHash(parse, input).Ok? <==> AllOk(PayloadFields(parse, input))
  {
    if CanonicalPayload(parse, input).Ok? {
      PayloadFieldsOk(parse, input);
    } else if AllOk(PayloadFields(parse, input)) {
      PayloadExists(parse, input);
    }
  }

  lemma FieldsAreOk(parse: Parser, input: Input)
    ensures AllOk(PayloadFields(parse, input)) <==> PayloadAccepted(parse, input)
  {
    SevenAreOk(PayloadFields(parse, input));
    PlainAreOk(parse, input);
    NestedAreOk(parse, input);
    ReceiverIsOk(parse, input);
    LinesAcceptance(input.lines);
  }

  /** A payload has a canonical form exactly if its receiver normalises and its fields can be read. */
  lemma PayloadAcceptance(parse: Parser, input: Input)
    ensures CanonicalHash(parse, input).Ok? <==> PayloadAccepted(parse, input)
  {
    PayloadIsOk(parse, input);
    FieldsAreOk(parse, input);
  }

  // -- Columns -----------------------------------------------------------------------------

  lemma {:induction false} StrippedEndsInNonZero(s: string)
    ensures StripZeros(s) == "" || StripZeros(s)[|StripZeros(s)| - 1] != '0'
    decreases |s|
  {
    if s != "" && s[|s| - 1] == '0' {
      StrippedEndsInNonZero(s[..|s| - 1]);
    }
  }

  /** The text of a decimal column denotes the amount and has no zeros to spare after its point. */
  lemma ColumnIsShort(d: SD.ScaledDecimal)
    ensures SD.From(ColumnText(d)) == Some(d)
    ensures '.' in ColumnText(d) ==> ColumnText(d)[|ColumnText(d)| - 1] !in {'0', '.'}
  {
    ColumnReadsBack(d);
    AsciiRoundTrip(ColumnText(d));
    StrippedEndsInNonZero(SD.Fraction(d));
    var fraction := StripZeros(SD.Fraction(d));
    assert AllDigits(fraction) && AllDigits(SD.Whole(d));
    assert '.' !in SD.Whole(d) && '.' !in fraction;
    if fraction != "" {
      assert ColumnText(d)[|ColumnText(d)| - 1] == fraction[|fraction| - 1];
    }
  }

  lemma RegroupText(sign: string, whole: string, fraction: string, zeros: string)
    ensures sign + whole + "." + (fraction + zeros) == (sign + (whole + "." + fraction)) + zeros
    ensures sign + whole + "." + ("" + zeros) == (sign + whole) + ("." + zeros)
  {
    assert "" + zeros == zeros;
  }

  lemma {:induction false} ZerosAreZero(k: nat)
    ensures forall i :: 0 <= i < k ==> Zeros(k)[i] == '0'
  {
    if k > 0 {
      ZerosAreZero(k - 1);
    }
  }

  /** It is the text with five decimal places, without the zeros at its end, and without a point that they leave. */
  lemma ColumnIsPrinted(d: SD.ScaledDecimal)
    ensures
      exists zeros, point ::
        && (forall i :: 0 <= i < |zeros| ==> zeros[i] == '0') && point in {"", "."}
        && SD.ToString(d) == ColumnText(d) + (point + zeros)
  {
    var fraction := StripZeros(SD.Fraction(d));
    var zeros := Zeros(5 - |fraction|);
    var sign := if d.units < 0 then "-" else "";
    StrippedZerosComeBack(SD.Fraction(d));
    RegroupText(sign, SD.Whole(d), fraction, zeros);
    ZerosAreZero(5 - |fraction|);
    if fraction == "" {
      assert SD.ToString(d) == ColumnText(d) + ("." + zeros);
    } else {
      assert SD.ToString(d) == ColumnText(d) + zeros;
      assert "" + zeros == zeros;
    }
  }
}
