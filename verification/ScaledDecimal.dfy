/** Exact decimal amounts with five fractional digits, and document totals folded through their text. */
module ScaledDecimal {
  import opened Common
  import opened DecimalText

  const SCALE: nat := 5
  const FACTOR: nat := 100000

  datatype ScaledDecimal = ScaledDecimal(units: int)

  /** BigInt division truncates toward zero. */
  function TruncDiv(a: int, b: nat): int
    requires b > 0
  {
    if a >= 0 then a / b else -((-a) / b)
  }

  // -- Text --------------------------------------------------------------------------------

  function DotAt(s: string): (i: nat)
    ensures i <= |s|
    ensures '.' !in s[..i] && (i < |s| ==> s[i] == '.')
  {
    if s == "" || s[0] == '.' then 0 else 1 + DotAt(s[1..])
  }

  function Unsigned(value: string): string {
    if value != "" && value[0] == '-' then value[1..] else value
  }

  /** padEnd(5, '0') */
  function PadEnd(fraction: string): (r: string)
    requires AllDigits(fraction) && |fraction| <= SCALE
    ensures |r| == SCALE && AllDigits(r)
    ensures |fraction| == SCALE ==> r == fraction
  {
    fraction + Zeros(SCALE - |fraction|)
  }

  function FractionAfter(body: string, dot: nat): string
    requires dot <= |body|
  {
    if dot < |body| then body[dot + 1..] else ""
  }

  function Combined(whole: string, fraction: string): nat
    requires AllDigits(whole) && AllDigits(fraction) && |fraction| <= SCALE
  {
    Value(whole) * FACTOR + Value(PadEnd(fraction))
  }

  function MagnitudeAt(body: string, dot: nat): Option<nat>
    requires dot <= |body|
  {
    var fraction := FractionAfter(body, dot);
    if dot == 0 || !AllDigits(body[..dot]) || !AllDigits(fraction) || |fraction| > SCALE then None
    else if dot < |body| && fraction == "" then None
    else Some(Combined(body[..dot], fraction))
  }

  /** The pattern \d+(\.\d{1,5})? with its amount, in units. */
  function Magnitude(body: string): Option<nat> {
    MagnitudeAt(body, DotAt(body))
  }

  function Signed(negative: bool, magnitude: nat): ScaledDecimal {
    ScaledDecimal(if negative then -(magnitude as int) else magnitude)
  }

  function From(value: string): Option<ScaledDecimal> {
    match Magnitude(Unsigned(value))
    case None => None
    case Some(magnitude) => Some(Signed(value != "" && value[0] == '-', magnitude))
  }

  function Abs(d: ScaledDecimal): nat {
    if d.units < 0 then -d.units else d.units
  }

  function Whole(d: ScaledDecimal): (s: string)
    ensures s != "" && AllDigits(s) && Value(s) == Abs(d) / FACTOR
  {
    DigitsRoundTrip(Abs(d) / FACTOR);
    Digits(Abs(d) / FACTOR)
  }

  lemma FactorIsPower()
    ensures Pow10(SCALE) == FACTOR
  {
    assert Pow10(1) == 10 && Pow10(2) == 100 && Pow10(3) == 1000;
    assert Pow10(4) == 10 * Pow10(3) && Pow10(5) == 10 * Pow10(4);
  }

  function Fraction(d: ScaledDecimal): (s: string)
    ensures |s| == SCALE && AllDigits(s) && Value(s) == Abs(d) % FACTOR
  {
    FactorIsPower();
    PaddedFits(Abs(d) % FACTOR, SCALE);
    PaddedRoundTrip(Abs(d) % FACTOR, SCALE);
    PadStart(Digits(Abs(d) % FACTOR), SCALE)
  }

  function ToString(d: ScaledDecimal): string {
    (if d.units < 0 then "-" else "") + Whole(d) + "." + Fraction(d)
  }

  lemma NoDot(s: string)
    requires AllDigits(s)
    ensures '.' !in s
  {}

  lemma {:induction false} DotAfter(s: string, t: string)
    requires '.' !in s
    ensures DotAt(s + "." + t) == |s|
  {
    var text := s + "." + t;
    if s != "" {
      assert text[1..] == s[1..] + "." + t;
      DotAfter(s[1..], t);
    }
  }

  /** A body of digits, a dot and five digits splits at the dot. */
  lemma BodyParts(whole: string, fraction: string)
    requires whole != "" && AllDigits(whole) && AllDigits(fraction) && |fraction| == SCALE
    ensures
      var body := whole + "." + fraction;
      && DotAt(body) == |whole| && |body| == |whole| + 1 + SCALE
      && body[..|whole|] == whole && body[|whole| + 1..] == fraction
      && body[0] != '-'
  {
    NoDot(whole);
    DotAfter(whole, fraction);
    assert (whole + "." + fraction)[0] == whole[0];
  }

  lemma QuotientAndRest(n: nat)
    ensures n / FACTOR * FACTOR + n % FACTOR == n
  {}

  /** Any fraction that is padded to the printed one makes up the amount again. */
  lemma PartsMakeUp(d: ScaledDecimal, fraction: string)
    requires AllDigits(fraction) && |fraction| <= SCALE && PadEnd(fraction) == Fraction(d)
    ensures Combined(Whole(d), fraction) == Abs(d)
  {
    QuotientAndRest(Abs(d));
  }

  lemma MagnitudeOfParts(body: string, whole: string, fraction: string)
    requires whole != "" && AllDigits(whole) && AllDigits(fraction) && |fraction| <= SCALE
    requires |whole| <= |body| && body[..|whole|] == whole && FractionAfter(body, |whole|) == fraction
    requires |whole| < |body| ==> fraction != ""
    ensures MagnitudeAt(body, |whole|) == Some(Combined(whole, fraction))
  {}

  lemma SignOfParts(negative: bool, body: string)
    requires body != "" && body[0] != '-'
    ensures Unsigned((if negative then "-" else "") + body) == body
    ensures ((if negative then "-" else "") + body)[0] == '-' <==> negative
  {
    if !negative {
      assert "" + body == body;
    }
  }

  lemma Regroup(sign: string, whole: string, fraction: string)
    ensures sign + whole + "." + fraction == sign + (whole + "." + fraction)
  {}

  lemma SignedBodyReads(negative: bool, body: string, magnitude: nat)
    requires body != "" && body[0] != '-' && Magnitude(body) == Some(magnitude)
    ensures From((if negative then "-" else "") + body) == Some(Signed(negative, magnitude))
  {
    SignOfParts(negative, body);
  }

  lemma PrintedMagnitude(d: ScaledDecimal)
    ensures Magnitude(Whole(d) + "." + Fraction(d)) == Some(Abs(d))
    ensures (Whole(d) + "." + Fraction(d))[0] != '-'
  {
    BodyParts(Whole(d), Fraction(d));
    MagnitudeOfParts(Whole(d) + "." + Fraction(d), Whole(d), Fraction(d));
    PartsMakeUp(d, Fraction(d));
  }

  /** Every amount is read back from its text. */
  lemma TextRoundTrip(d: ScaledDecimal)
    ensures From(ToString(d)) == Some(d)
  {
    PrintedMagnitude(d);
    Regroup(if d.units < 0 then "-" else "", Whole(d), Fraction(d));
    SignedBodyReads(d.units < 0, Whole(d) + "." + Fraction(d), Abs(d));
  }

  // -- Arithmetic --------------------------------------------------------------------------

  function Add(a: ScaledDecimal, b: ScaledDecimal): ScaledDecimal {
    ScaledDecimal(a.units + b.units)
  }

  function Subtract(a: ScaledDecimal, b: ScaledDecimal): ScaledDecimal {
    ScaledDecimal(a.units - b.units)
  }

  function Multiply(a: ScaledDecimal, b: ScaledDecimal): ScaledDecimal {
    ScaledDecimal(TruncDiv(a.units * b.units + FACTOR / 2, FACTOR))
  }

  /** The product rounded to the nearest unit, halves upward. */
  predicate IsHalfUp(product: int, units: int) {
    -(FACTOR as int) <= 2 * (product - units * FACTOR) < FACTOR
  }

  /** Rounding is half-up from a product of -FACTOR / 2 on; below that, at exact halves alone. */
  lemma MultiplyRoundsHalfUp(a: ScaledDecimal, b: ScaledDecimal)
    ensures
      var shifted := a.units * b.units + FACTOR / 2;
      IsHalfUp(a.units * b.units, Multiply(a, b).units) <==> (shifted >= 0 || shifted % FACTOR == 0)
  {
    var n := a.units * b.units + FACTOR / 2;
    if n < 0 {
      assert -n == (-n) / FACTOR * FACTOR + (-n) % FACTOR;
      assert n % FACTOR == 0 <==> (-n) % FACTOR == 0;
    }
  }

  // -- Totals ------------------------------------------------------------------------------

  datatype Line = Line(
    quantity: string,
    unitPrice: string,
    discountAmount: Option<string>,
    taxAmount: Option<string>)

  function OrZero(amount: Option<string>): string {
    if amount.Some? then amount.value else "0"
  }

  predicate Readable(line: Line) {
    && From(line.quantity).Some? && From(line.unitPrice).Some?
    && From(OrZero(line.discountAmount)).Some? && From(OrZero(line.taxAmount)).Some?
  }

  predicate AllReadable(lines: seq<Line>) {
    forall i :: 0 <= i < |lines| ==> Readable(lines[i])
  }

  /** The amounts of a line. */
  datatype Amounts = Amounts(quantity: ScaledDecimal, unitPrice: ScaledDecimal, discount: ScaledDecimal,
      tax: ScaledDecimal)

  function AmountsOf(line: Line): Amounts
    requires Readable(line)
  {
    Amounts(
      From(line.quantity).value, From(line.unitPrice).value,
      From(OrZero(line.discountAmount)).value, From(OrZero(line.taxAmount)).value)
  }

  function Gross(a: Amounts): ScaledDecimal {
    Multiply(a.quantity, a.unitPrice)
  }

  /** The amount checks of a line, including those of its discount. */
  predicate ValidAmounts(a: Amounts) {
    && a.quantity.units >= 0
    && a.unitPrice.units >= 0
    && (a.discount.units == 0 || (a.discount.units >= 0 && Subtract(Gross(a), a.discount).units >= 0))
  }

  datatype Totals = Totals(grossAmount: string, discountAmount: string, taxAmount: string, totalAmount: string)

  predicate ReadableTotals(t: Totals) {
    From(t.grossAmount).Some? && From(t.discountAmount).Some? && From(t.taxAmount).Some? && From(t.totalAmount).Some?
  }

  /** Four amounts, each summed so far. */
  datatype Running = Running(gross: ScaledDecimal, discount: ScaledDecimal, tax: ScaledDecimal, total: ScaledDecimal)

  function WriteTotals(r: Running): Totals {
    Totals(ToString(r.gross), ToString(r.discount), ToString(r.tax), ToString(r.total))
  }

  function ReadTotals(t: Totals): Running
    requires ReadableTotals(t)
  {
    Running(From(t.grossAmount).value, From(t.discountAmount).value, From(t.taxAmount).value, From(t.totalAmount).value)
  }

  function AddTo(r: Running, a: Amounts): Running {
    var net := Subtract(Gross(a), a.discount);
    Running(Add(r.gross, Gross(a)), Add(r.discount, a.discount), Add(r.tax, a.tax), Add(Add(r.total, net), a.tax))
  }

  lemma WrittenTotalsReadBack(r: Running)
    ensures ReadableTotals(WriteTotals(r)) && ReadTotals(WriteTotals(r)) == r
  {
    TextRoundTrip(r.gross);
    TextRoundTrip(r.discount);
    TextRoundTrip(r.tax);
    TextRoundTrip(r.total);
  }

  /** One step of the fold: every total is read from its text, changed, and written again. */
  function AddLine(t: Totals, a: Amounts): (r: Totals)
    requires ReadableTotals(t)
    ensures ReadableTotals(r)
  {
    WrittenTotalsReadBack(AddTo(ReadTotals(t), a));
    WriteTotals(AddTo(ReadTotals(t), a))
  }

  lemma ZeroDigits()
    ensures PadStart("0", SCALE) == "00000"
  {
    assert Zeros(4) == Zeros(3) + "0" && Zeros(3) == Zeros(2) + "0" && Zeros(2) == Zeros(1) + "0" && Zeros(1) == "0";
  }

  lemma ZeroText()
    ensures ToString(ScaledDecimal(0)) == "0.00000"
  {
    var zero := ScaledDecimal(0);
    ZeroDigits();
    assert Digits(0) == "0";
    assert Whole(zero) == "0" && Fraction(zero) == "00000";
  }

  const ZERO_TOTALS := Totals("0.00000", "0.00000", "0.00000", "0.00000")

  lemma ZeroTotalsAreReadable()
    ensures ReadableTotals(ZERO_TOTALS)
  {
    ZeroText();
    TextRoundTrip(ScaledDecimal(0));
  }

  function CalculateTotals(lines: seq<Line>): (t: Totals)
    requires AllReadable(lines)
    ensures ReadableTotals(t)
  {
    if lines == [] then
      ZeroTotalsAreReadable();
      ZERO_TOTALS
    else
      AddLine(CalculateTotals(lines[..|lines| - 1]), AmountsOf(lines[|lines| - 1]))
  }

  /** Exact sums, in units; `product` sums quantity times price, in units of units. */
  datatype Sums = Sums(gross: int, discount: int, tax: int, product: int)

  function AddAmounts(sums: Sums, a: Amounts): Sums {
    Sums(
      sums.gross + Gross(a).units, sums.discount + a.discount.units, sums.tax + a.tax.units,
      sums.product + a.quantity.units * a.unitPrice.units)
  }

  function SumsOf(lines: seq<Line>): Sums
    requires AllReadable(lines)
  {
    if lines == [] then Sums(0, 0, 0, 0)
    else AddAmounts(SumsOf(lines[..|lines| - 1]), AmountsOf(lines[|lines| - 1]))
  }

  /** The sums as amounts; the total is gross minus discount plus tax. */
  function RunningOf(sums: Sums): Running {
    Running(
      ScaledDecimal(sums.gross), ScaledDecimal(sums.discount), ScaledDecimal(sums.tax),
      ScaledDecimal(sums.gross - sums.discount + sums.tax))
  }

  lemma AddingFollows(sums: Sums, a: Amounts)
    ensures AddTo(RunningOf(sums), a) == RunningOf(AddAmounts(sums, a))
  {}

  /** Going through text at every step loses nothing: the totals are the texts of the exact sums. */
  lemma {:induction false} TotalsAreExactSums(lines: seq<Line>)
    requires AllReadable(lines)
    ensures CalculateTotals(lines) == WriteTotals(RunningOf(SumsOf(lines)))
    decreases |lines|
  {
    if lines == [] {
      ZeroText();
    } else {
      var n := |lines| - 1;
      TotalsAreExactSums(lines[..n]);
      WrittenTotalsReadBack(RunningOf(SumsOf(lines[..n])));
      AddingFollows(SumsOf(lines[..n]), AmountsOf(lines[n]));
    }
  }

  lemma GrossIsNear(a: Amounts)
    requires ValidAmounts(a)
    ensures 0 <= a.discount.units <= Gross(a).units
    ensures -(FACTOR as int) <= 2 * (Gross(a).units * FACTOR - a.quantity.units * a.unitPrice.units) <= FACTOR
  {
    assert 0 <= a.quantity.units * a.unitPrice.units;
    MultiplyRoundsHalfUp(a.quantity, a.unitPrice);
  }

  /**
   For validated lines the discount lies between zero and the gross amount, and the gross amount is
   off the exact sum of the products by at most half a unit per line.
   */
  lemma {:induction false} ValidatedTotals(lines: seq<Line>)
    requires AllReadable(lines) && forall i :: 0 <= i < |lines| ==> ValidAmounts(AmountsOf(lines[i]))
    ensures
      var sums := SumsOf(lines);
      && 0 <= sums.discount <= sums.gross
      && -(|lines| * FACTOR) <= 2 * (sums.gross * FACTOR - sums.product) <= |lines| * FACTOR
    decreases |lines|
  {
    if lines == [] {
    } else {
      var n := |lines| - 1;
      ValidatedTotals(lines[..n]);
      GrossIsNear(AmountsOf(lines[n]));
    }
  }

  // -- What a text and a total mean --------------------------------------------------------

  function Tenfold(n: nat, k: nat): nat {
    if k == 0 then n else 10 * Tenfold(n, k - 1)
  }

  /** The fraction in units: its first digit counts ten thousand of them. */
  function FractionUnits(fraction: string): nat
    requires AllDigits(fraction) && |fraction| <= 5
  {
    Tenfold(Value(fraction), 5 - |fraction|)
  }

  function Dotted(fraction: string): string {
    if fraction == "" then "" else "." + fraction
  }

  /** The text is a sign, digits, and possibly a dot and one to five digits; `units` is what it says. */
  ghost predicate Says(text: string, negative: bool, whole: string, fraction: string, units: int) {
    && whole != "" && AllDigits(whole) && AllDigits(fraction) && |fraction| <= 5
    && text == (if negative then "-" else "") + (whole + Dotted(fraction))
    && var magnitude: int := Value(whole) * 100000 + FractionUnits(fraction);
       units == if negative then -magnitude else magnitude
  }

  lemma ZeroShifts(s: string)
    requires AllDigits(s)
    ensures Value(s + "0") == 10 * Value(s)
  {
    assert (s + "0")[..|s|] == s;
  }

  lemma MoreZeros(fraction: string, n: nat)
    requires n > 0
    ensures fraction + Zeros(n) == fraction + Zeros(n - 1) + "0"
  {}

  lemma {:induction false} PaddingShifts(fraction: string, n: nat)
    requires AllDigits(fraction)
    ensures Value(fraction + Zeros(n)) == Tenfold(Value(fraction), n)
  {
    if n == 0 {
      assert fraction + Zeros(0) == fraction;
    } else {
      PaddingShifts(fraction, n - 1);
      MoreZeros(fraction, n);
      ZeroShifts(fraction + Zeros(n - 1));
    }
  }

  lemma {:induction false} DotAtWhole(whole: string, rest: string)
    requires AllDigits(whole) && (rest == "" || rest[0] == '.')
    ensures DotAt(whole + rest) == |whole|
    decreases |whole|
  {
    if whole == "" {
      assert whole + rest == rest;
    } else {
      assert (whole + rest)[1..] == whole[1..] + rest;
      DotAtWhole(whole[1..], rest);
    }
  }

  lemma CombinedSays(whole: string, fraction: string)
    requires AllDigits(whole) && AllDigits(fraction) && |fraction| <= 5
    ensures Combined(whole, fraction) == Value(whole) * 100000 + FractionUnits(fraction)
  {
    PaddingShifts(fraction, SCALE - |fraction|);
  }

  lemma MagnitudeSays(whole: string, fraction: string)
    requires whole != "" && AllDigits(whole) && AllDigits(fraction) && |fraction| <= 5
    ensures Magnitude(whole + Dotted(fraction)) == Some(Combined(whole, fraction))
  {
    DotAtWhole(whole, Dotted(fraction));
    var body := whole + Dotted(fraction);
    assert body[..|whole|] == whole;
    assert FractionAfter(body, |whole|) == fraction;
    MagnitudeOfParts(body, whole, fraction);
  }

  lemma BodyMagnitude(whole: string, fraction: string, body: string)
    requires whole != "" && AllDigits(whole) && AllDigits(fraction) && |fraction| <= 5
    requires body == whole + Dotted(fraction)
    ensures body != "" && body[0] != '-'
    ensures Magnitude(body) == Some(Value(whole) * 100000 + FractionUnits(fraction))
  {
    MagnitudeSays(whole, fraction);
    CombinedSays(whole, fraction);
    assert body[0] == whole[0];
  }

  /** What a text says is read, whatever its sign and its number of decimal places. */
  lemma SaidIsRead(text: string, negative: bool, whole: string, fraction: string, units: int)
    requires Says(text, negative, whole, fraction, units)
    ensures From(text) == Some(ScaledDecimal(units))
  {
    var body := whole + Dotted(fraction);
    BodyMagnitude(whole, fraction, body);
    SignedBodyReads(negative, body, Value(whole) * 100000 + FractionUnits(fraction));
  }

  lemma BodySplits(body: string)
    requires Magnitude(body).Some?
    ensures
      var whole, fraction := body[..DotAt(body)], FractionAfter(body, DotAt(body));
      && whole != "" && AllDigits(whole) && AllDigits(fraction) && |fraction| <= 5
      && body == whole + Dotted(fraction)
  {
    var dot := DotAt(body);
    assert body == body[..dot] + body[dot..];
    if dot < |body| {
      assert body[dot..] == "." + body[dot + 1..];
    } else {
      assert body[dot..] == "";
    }
  }

  /** And nothing else is read. */
  lemma ReadIsSaid(text: string)
    requires From(text).Some?
    ensures exists negative, whole, fraction :: Says(text, negative, whole, fraction, From(text).value.units)
  {
    var negative := text != "" && text[0] == '-';
    var body := Unsigned(text);
    var whole, fraction := body[..DotAt(body)], FractionAfter(body, DotAt(body));
    BodySplits(body);
    MagnitudeSays(whole, fraction);
    CombinedSays(whole, fraction);
    assert text == (if negative then "-" else "") + body;
    assert Says(text, negative, whole, fraction, From(text).value.units);
  }

  function UnitsOf(text: string): int
    requires From(text).Some?
  {
    From(text).value.units
  }

  /** An amount that is left out is zero. */
  function OptionalUnits(amount: Option<string>): int
    requires amount.Some? ==> From(amount.value).Some?
  {
    if amount.Some? then UnitsOf(amount.value) else 0
  }

  /** Every amount of the line that is there can be read. */
  predicate LineReadable(line: Line) {
    && From(line.quantity).Some? && From(line.unitPrice).Some?
    && (line.discountAmount.Some? ==> From(line.discountAmount.value).Some?)
    && (line.taxAmount.Some? ==> From(line.taxAmount.value).Some?)
  }

  /** The product in units, half a unit added and truncated toward zero. */
  function LineGross(line: Line): int
    requires LineReadable(line)
  {
    var product := UnitsOf(line.quantity) * UnitsOf(line.unitPrice);
    if product + 50000 >= 0 then (product + 50000) / 100000 else -((-product - 50000) / 100000)
  }

  predicate AllLinesReadable(lines: seq<Line>) {
    forall i :: 0 <= i < |lines| ==> LineReadable(lines[i])
  }

  function GrossSum(lines: seq<Line>): int
    requires AllLinesReadable(lines)
  {
    if lines == [] then 0
    else
      assert LineReadable(lines[|lines| - 1]);
      GrossSum(lines[..|lines| - 1]) + LineGross(lines[|lines| - 1])
  }

  function DiscountSum(lines: seq<Line>): int
    requires AllLinesReadable(lines)
  {
    if lines == [] then 0
    else
      assert LineReadable(lines[|lines| - 1]);
      DiscountSum(lines[..|lines| - 1]) + OptionalUnits(lines[|lines| - 1].discountAmount)
  }

  function TaxSum(lines: seq<Line>): int
    requires AllLinesReadable(lines)
  {
    if lines == [] then 0
    else
      assert LineReadable(lines[|lines| - 1]);
      TaxSum(lines[..|lines| - 1]) + OptionalUnits(lines[|lines| - 1].taxAmount)
  }

  /** Quantity times price, in units of units. */
  function LineProduct(line: Line): int
    requires LineReadable(line)
  {
    UnitsOf(line.quantity) * UnitsOf(line.unitPrice)
  }

  function ProductSum(lines: seq<Line>): int
    requires AllLinesReadable(lines)
  {
    if lines == [] then 0
    else
      assert LineReadable(lines[|lines| - 1]);
      ProductSum(lines[..|lines| - 1]) + LineProduct(lines[|lines| - 1])
  }

  lemma ZeroReads()
    ensures From("0") == Some(ScaledDecimal(0))
  {
    assert Value("0") == 0 by { assert "0"[..0] == ""; }
    assert Value("") == 0;
    SaidIsRead("0", false, "0", "", 0);
  }

  lemma LineSays(line: Line)
    requires LineReadable(line)
    ensures
      && Readable(line)
      && Gross(AmountsOf(line)).units == LineGross(line)
      && AmountsOf(line).discount.units == OptionalUnits(line.discountAmount)
      && AmountsOf(line).tax.units == OptionalUnits(line.taxAmount)
  {
    ZeroReads();
  }

  lemma LinesAreReadable(lines: seq<Line>)
    requires AllLinesReadable(lines)
    ensures AllReadable(lines)
  {
    forall i | 0 <= i < |lines| ensures Readable(lines[i]) {
      LineSays(lines[i]);
    }
  }

  lemma AddedFields(sums: Sums, line: Line)
    requires LineReadable(line) && Readable(line)
    ensures
      var after := AddAmounts(sums, AmountsOf(line));
      && after.gross == sums.gross + LineGross(line)
      && after.discount == sums.discount + OptionalUnits(line.discountAmount)
      && after.tax == sums.tax + OptionalUnits(line.taxAmount)
      && after.product == sums.product + LineProduct(line)
  {
    LineSays(line);
  }

  /** The last line of a list. */
  lemma LastLine(lines: seq<Line>) returns (rest: seq<Line>, last: Line)
    requires AllLinesReadable(lines) && AllReadable(lines) && lines != []
    ensures AllLinesReadable(rest) && AllReadable(rest) && LineReadable(last) && Readable(last)
    ensures rest == lines[..|lines| - 1] && last == lines[|lines| - 1]
    ensures SumsOf(lines) == AddAmounts(SumsOf(rest), AmountsOf(last))
  {
    rest, last := lines[..|lines| - 1], lines[|lines| - 1];
    assert LineReadable(last) && Readable(last);
  }

  lemma FieldsOfLast(lines: seq<Line>, rest: seq<Line>, last: Line)
    requires AllLinesReadable(lines) && AllLinesReadable(rest) && LineReadable(last)
    requires lines != [] && rest == lines[..|lines| - 1] && last == lines[|lines| - 1]
    ensures GrossSum(lines) == GrossSum(rest) + LineGross(last)
    ensures DiscountSum(lines) == DiscountSum(rest) + OptionalUnits(last.discountAmount)
    ensures TaxSum(lines) == TaxSum(rest) + OptionalUnits(last.taxAmount)
    ensures ProductSum(lines) == ProductSum(rest) + LineProduct(last)
  {}

  predicate Agree(sums: Sums, gross: int, discount: int, tax: int, product: int) {
    sums.gross == gross && sums.discount == discount && sums.tax == tax && sums.product == product
  }

  lemma {:induction false} SumsAreFieldSums(lines: seq<Line>)
    requires AllLinesReadable(lines) && AllReadable(lines)
    ensures Agree(SumsOf(lines), GrossSum(lines), DiscountSum(lines), TaxSum(lines), ProductSum(lines))
    decreases |lines|
  {
    if lines == [] {
    } else {
      var rest, last := LastLine(lines);
      SumsAreFieldSums(rest);
      AddedFields(SumsOf(rest), last);
      FieldsOfLast(lines, rest, last);
    }
  }

  /**
   Each total is the text of the sum of its own field: the rounded products, the discounts, the taxes,
   and products less discounts plus taxes.
   */
  lemma TotalsSumTheirFields(lines: seq<Line>)
    requires AllLinesReadable(lines)
    ensures AllReadable(lines)
    ensures
      CalculateTotals(lines) == Totals(
        ToString(ScaledDecimal(GrossSum(lines))), ToString(ScaledDecimal(DiscountSum(lines))),
        ToString(ScaledDecimal(TaxSum(lines))),
        ToString(ScaledDecimal(GrossSum(lines) - DiscountSum(lines) + TaxSum(lines))))
  {
    LinesAreReadable(lines);
    SumsAreFieldSums(lines);
    TotalsAreExactSums(lines);
  }

  lemma FractionCounts(d: ScaledDecimal)
    ensures FractionUnits(Fraction(d)) == Abs(d) % FACTOR
  {}

  lemma SignedParts(d: ScaledDecimal)
    ensures
      var magnitude: int := Abs(d) / FACTOR * 100000 + Abs(d) % FACTOR;
      d.units == if d.units < 0 then -magnitude else magnitude
  {
    QuotientAndRest(Abs(d));
  }

  lemma PrintedSays(d: ScaledDecimal, whole: string, fraction: string)
    requires whole == Whole(d) && fraction == Fraction(d)
    ensures ToString(d) == (if d.units < 0 then "-" else "") + (whole + Dotted(fraction))
  {
    Regroup(if d.units < 0 then "-" else "", whole, fraction);
    assert whole + ("." + fraction) == whole + "." + fraction;
  }

  lemma PartsSay(d: ScaledDecimal)
    ensures Says(ToString(d), d.units < 0, Whole(d), Fraction(d), d.units)
  {
    FractionCounts(d);
    SignedParts(d);
    PrintedSays(d, Whole(d), Fraction(d));
  }

  /** The text of an amount has no leading zero and five decimal places. */
  lemma TextShape(d: ScaledDecimal)
    ensures
      exists whole, fraction ::
        && Says(ToString(d), d.units < 0, whole, fraction, d.units)
        && |fraction| == 5 && (|whole| > 1 ==> whole[0] != '0')
  {
    DigitsLead(Abs(d) / FACTOR);
    PartsSay(d);
  }

  /** The checks of a line on its amounts. */
  predicate ValidLine(line: Line) {
    && LineReadable(line)
    && UnitsOf(line.quantity) >= 0 && UnitsOf(line.unitPrice) >= 0
    && (OptionalUnits(line.discountAmount) == 0 || 0 <= OptionalUnits(line.discountAmount) <= LineGross(line))
  }

  /**
   For validated lines the discounts lie between zero and the gross amount, and the gross amount is off
   the exact sum of quantity times price by at most half a unit per line.
   */
  lemma ValidatedFieldTotals(lines: seq<Line>)
    requires AllLinesReadable(lines) && forall i :: 0 <= i < |lines| ==> ValidLine(lines[i])
    ensures 0 <= DiscountSum(lines) <= GrossSum(lines)
    ensures -(|lines| * 100000) <= 2 * (GrossSum(lines) * 100000 - ProductSum(lines)) <= |lines| * 100000
  {
    LinesAreReadable(lines);
    forall i | 0 <= i < |lines| ensures ValidAmounts(AmountsOf(lines[i])) {
      assert ValidLine(lines[i]);
      LineSays(lines[i]);
    }
    SumsAreFieldSums(lines);
    ValidatedTotals(lines);
  }
}
