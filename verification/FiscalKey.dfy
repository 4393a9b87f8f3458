/** The 20-digit consecutive and the 50-digit clave of a fiscal document, and a decoder for both. */
module FiscalKey {
  import opened Common
  import opened DecimalText

  datatype DocumentType = Invoice | Ticket

  datatype KeyError =
    | BranchCode
    | TerminalCode
    | SequenceRange
    | IssuerIdentification
    | Consecutive
    | SecurityCode
    | Situation

  const COUNTRY_CODE := "506"
  const NORMAL_SITUATION := "1"
  const MAX_SEQUENCE: nat := 9999999999

  function DocumentCode(t: DocumentType): string {
    if t == Invoice then "01" else "04"
  }

  /** The pattern ^\d{width}$ */
  predicate IsDigits(s: string, width: nat) {
    |s| == width && AllDigits(s)
  }

  // -- Building ----------------------------------------------------------------------------

  function BuildConsecutive(branchCode: string, terminalCode: string, documentType: DocumentType, sequenceValue: int):
    Result<string, KeyError>
  {
    if !IsDigits(branchCode, 3) then Err(BranchCode)
    else if !IsDigits(terminalCode, 5) then Err(TerminalCode)
    else if sequenceValue < 1 || sequenceValue > MAX_SEQUENCE then Err(SequenceRange)
    else Ok(branchCode + terminalCode + DocumentCode(documentType) + PadStart(Digits(sequenceValue), 10))
  }

  function Trim(s: string): string {
    TrimBy(s, c => IsSpaceUnit(c as int as nat))
  }

  function NormalizeIssuer(value: string): Result<string, KeyError> {
    var normalized := Trim(value);
    if 1 <= |normalized| <= 12 && AllDigits(normalized) then Ok(PadStart(normalized, 12))
    else Err(IssuerIdentification)
  }

  datatype Date = Date(day: nat, month: nat, year: nat)

  function TwoDigits(n: nat): string {
    PadStart(Digits(n), 2)
  }

  function SituationOf(situation: Option<string>): string {
    if situation.Some? then situation.value else NORMAL_SITUATION
  }

  function BuildFiscalKey(issuedAt: Date, issuer: string, consecutive: string, securityCode: string,
      situation: Option<string>):
    Result<string, KeyError>
  {
    match NormalizeIssuer(issuer)
    case Err(error) => Err(error)
    case Ok(id) =>
      var code := SituationOf(situation);
      if !IsDigits(consecutive, 20) then Err(Consecutive)
      else if !IsDigits(securityCode, 8) then Err(SecurityCode)
      else if !IsDigits(code, 1) then Err(Situation)
      else Ok(COUNTRY_CODE + TwoDigits(issuedAt.day) + TwoDigits(issuedAt.month) + TwoDigits(issuedAt.year % 100)
              + id + consecutive + code + securityCode)
  }

  // -- Decoding ----------------------------------------------------------------------------

  datatype ConsecutiveParts = ConsecutiveParts(branch: string, terminal: string, documentType: DocumentType,
      sequence: nat)

  function DecodeConsecutive(s: string): Option<ConsecutiveParts> {
    if !IsDigits(s, 20) then None
    else if s[8..10] == "01" then Some(ConsecutiveParts(s[..3], s[3..8], Invoice, Value(s[10..])))
    else if s[8..10] == "04" then Some(ConsecutiveParts(s[..3], s[3..8], Ticket, Value(s[10..])))
    else None
  }

  datatype KeyParts = KeyParts(
    day: nat, month: nat, yearOfCentury: nat, issuer: string, consecutive: string, situation: string,
        securityCode: string)

  function DecodeKey(s: string): Option<KeyParts> {
    if !IsDigits(s, 50) || s[..3] != COUNTRY_CODE then None
    else Some(KeyParts(Value(s[3..5]), Value(s[5..7]), Value(s[7..9]), s[9..21], s[21..41], s[41..42], s[42..]))
  }

  // -- Round trips -------------------------------------------------------------------------

  lemma FourParts(a: string, b: string, c: string, d: string)
    ensures
      var s := a + b + c + d;
      && |s| == |a| + |b| + |c| + |d|
      && s[..|a|] == a
      && s[|a|..|a| + |b|] == b
      && s[|a| + |b|..|a| + |b| + |c|] == c
      && s[|a| + |b| + |c|..] == d
    ensures AllDigits(a) && AllDigits(b) && AllDigits(c) && AllDigits(d) ==> AllDigits(a + b + c + d)
  {}

  lemma TenDigits()
    ensures Pow10(10) == MAX_SEQUENCE + 1 && Pow10(2) == 100
  {
    assert Pow10(1) == 10 && Pow10(2) == 100 && Pow10(3) == 1000 && Pow10(4) == 10000;
    assert Pow10(5) == 10 * Pow10(4) && Pow10(6) == 10 * Pow10(5) && Pow10(7) == 10 * Pow10(6);
    assert Pow10(8) == 10 * Pow10(7) && Pow10(9) == 10 * Pow10(8) && Pow10(10) == 10 * Pow10(9);
  }

  lemma SequenceText(sequenceValue: nat)
    requires 1 <= sequenceValue <= MAX_SEQUENCE
    ensures
      var text := PadStart(Digits(sequenceValue), 10);
      IsDigits(text, 10) && Value(text) == sequenceValue
  {
    TenDigits();
    PaddedFits(sequenceValue, 10);
    PaddedRoundTrip(sequenceValue, 10);
  }

  /** An accepted consecutive has 20 digits, and every part can be read from it. */
  lemma ConsecutiveRoundTrip(branchCode: string, terminalCode: string, documentType: DocumentType, sequenceValue: int)
    ensures
      match BuildConsecutive(branchCode, terminalCode, documentType, sequenceValue)
      case Err(error) =>
        if !IsDigits(branchCode, 3) then error == BranchCode
        else if !IsDigits(terminalCode, 5) then error == TerminalCode
        else error == SequenceRange && !(1 <= sequenceValue <= 9999999999)
      case Ok(s) =>
        && IsDigits(branchCode, 3) && IsDigits(terminalCode, 5) && 1 <= sequenceValue <= 9999999999
        && IsDigits(s, 20) && s[..3] == branchCode && s[3..8] == terminalCode
        && s[8..10] == (if documentType == Invoice then "01" else "04") && Value(s[10..]) == sequenceValue
        && DecodeConsecutive(s) == Some(ConsecutiveParts(branchCode, terminalCode, documentType, sequenceValue))
  {
    if BuildConsecutive(branchCode, terminalCode, documentType, sequenceValue).Ok? {
      SequenceText(sequenceValue);
      FourParts(branchCode, terminalCode, DocumentCode(documentType), PadStart(Digits(sequenceValue), 10));
    }
  }

  /** Different branches, terminals, types or sequence values give different consecutives. */
  lemma ConsecutiveIsInjective(
    branch1: string, terminal1: string, type1: DocumentType, sequence1: int,
    branch2: string, terminal2: string, type2: DocumentType, sequence2: int)
    requires BuildConsecutive(branch1, terminal1, type1, sequence1).Ok?
    requires BuildConsecutive(branch1, terminal1, type1, sequence1)
        == BuildConsecutive(branch2, terminal2, type2, sequence2)
    ensures branch1 == branch2 && terminal1 == terminal2 && type1 == type2 && sequence1 == sequence2
  {
    ConsecutiveRoundTrip(branch1, terminal1, type1, sequence1);
    ConsecutiveRoundTrip(branch2, terminal2, type2, sequence2);
  }

  lemma TwoDigitText(n: nat)
    requires n < 100
    ensures IsDigits(TwoDigits(n), 2) && Value(TwoDigits(n)) == n
  {
    TenDigits();
    PaddedFits(n, 2);
    PaddedRoundTrip(n, 2);
  }

  /** Where each of the eight parts of a clave starts. */
  lemma KeyLayout(date: string, issuer: string, consecutive: string, situation: string, securityCode: string)
    requires IsDigits(date, 9) && IsDigits(issuer, 12) && IsDigits(consecutive, 20)
    requires IsDigits(situation, 1) && IsDigits(securityCode, 8)
    ensures
      var s := date + issuer + consecutive + situation + securityCode;
      && IsDigits(s, 50) && s[..9] == date
      && s[9..21] == issuer && s[21..41] == consecutive && s[41..42] == situation && s[42..] == securityCode
  {
    FourParts(date, issuer, consecutive, situation);
    var front := date + issuer + consecutive + situation;
    var s := front + securityCode;
    assert s[..42] == front && s[42..] == securityCode;
    assert s[..9] == front[..9] && s[9..21] == front[9..21] && s[21..41] == front[21..41] && s[41..42] == front[41..];
  }

  function DateText(d: Date): string {
    COUNTRY_CODE + TwoDigits(d.day) + TwoDigits(d.month) + TwoDigits(d.year % 100)
  }

  lemma DateLayout(d: Date)
    requires d.day < 100 && d.month < 100
    ensures
      var s := DateText(d);
      && IsDigits(s, 9) && s[..3] == COUNTRY_CODE
      && Value(s[3..5]) == d.day && Value(s[5..7]) == d.month && Value(s[7..9]) == d.year % 100
  {
    TwoDigitText(d.day);
    TwoDigitText(d.month);
    TwoDigitText(d.year % 100);
    FourParts(COUNTRY_CODE, TwoDigits(d.day), TwoDigits(d.month), TwoDigits(d.year % 100));
    assert DateText(d)[7..9] == DateText(d)[7..];
  }

  lemma DateSlices(s: string, date: string)
    requires |s| == 50 && |date| == 9 && s[..9] == date
    ensures s[..3] == date[..3] && s[3..5] == date[3..5] && s[5..7] == date[5..7] && s[7..9] == date[7..9]
  {
    assert s[..3] == s[..9][..3] && s[3..5] == s[..9][3..5] && s[5..7] == s[..9][5..7] && s[7..9] == s[..9][7..9];
  }

  /** An accepted clave has exactly 50 digits, and every part can be read from it. */
  lemma KeyRoundTrip(issuedAt: Date, issuer: string, consecutive: string, securityCode: string,
      situation: Option<string>)
    requires issuedAt.day < 100 && issuedAt.month < 100
    ensures
      match BuildFiscalKey(issuedAt, issuer, consecutive, securityCode, situation)
      case Err(error) =>
        if NormalizeIssuer(issuer).Err? then error == IssuerIdentification
        else if !IsDigits(consecutive, 20) then error == Consecutive
        else if !IsDigits(securityCode, 8) then error == SecurityCode
        else error == Situation && situation.Some? && !IsDigits(situation.value, 1)
      case Ok(s) =>
        && NormalizeIssuer(issuer).Ok? && IsDigits(consecutive, 20) && IsDigits(securityCode, 8)
        && (situation.Some? ==> IsDigits(situation.value, 1))
        && IsDigits(s, 50) && s[..3] == "506" && s[41..42] == (if situation.Some? then situation.value else "1")
        && DecodeKey(s) == Some(KeyParts(
             issuedAt.day, issuedAt.month, issuedAt.year % 100, NormalizeIssuer(issuer).value, consecutive,
             SituationOf(situation), securityCode))
  {
    var result := BuildFiscalKey(issuedAt, issuer, consecutive, securityCode, situation);
    if result.Ok? {
      var code := SituationOf(situation);
      var id := NormalizeIssuer(issuer).value;
      DateLayout(issuedAt);
      KeyLayout(DateText(issuedAt), id, consecutive, code, securityCode);
      DateSlices(result.value, DateText(issuedAt));
    }
  }

  ghost predicate BlankText(s: string) {
    forall i :: 0 <= i < |s| ==> IsSpaceUnit(s[i] as int as nat)
  }

  /** Digits, twelve at most, with nothing but white space around them. */
  ghost predicate IssuerParts(value: string, lead: string, number: string, tail: string) {
    && value == lead + number + tail && BlankText(lead) && BlankText(tail)
    && 1 <= |number| <= 12 && AllDigits(number)
  }

  lemma {:induction false} TrimmedParts(value: string) returns (lead: string, tail: string)
    ensures value == lead + Trim(value) + tail && BlankText(lead) && BlankText(tail)
    decreases |value|
  {
    lead, tail := "", "";
    if value == "" {
      assert Trim(value) == "";
    } else if IsSpaceUnit(value[0] as int as nat) {
      lead, tail := TrimmedParts(value[1..]);
      lead := [value[0]] + lead;
      assert value == [value[0]] + value[1..];
    } else if IsSpaceUnit(value[|value| - 1] as int as nat) {
      lead, tail := TrimmedParts(value[..|value| - 1]);
      tail := tail + [value[|value| - 1]];
      assert value == value[..|value| - 1] + [value[|value| - 1]];
    } else {
      assert value == "" + value + "";
    }
  }

  lemma {:induction false} PartsAreTrimmed(value: string, lead: string, number: string, tail: string)
    requires IssuerParts(value, lead, number, tail)
    ensures Trim(value) == number
    decreases |value|
  {
    if lead != "" {
      assert value[1..] == lead[1..] + number + tail;
      PartsAreTrimmed(value[1..], lead[1..], number, tail);
    } else if tail != "" {
      var n := |value| - 1;
      assert value[0] == number[0] && value[n] == tail[|tail| - 1];
      assert value[..n] == lead + number + tail[..|tail| - 1];
      PartsAreTrimmed(value[..n], lead, number, tail[..|tail| - 1]);
    } else {
      assert value == number;
    }
  }

  /** The issuer is accepted exactly if it is a number with white space around it, and gets leading zeros. */
  lemma IssuerIsPadded(value: string)
    ensures NormalizeIssuer(value).Ok? <==> exists lead, number, tail :: IssuerParts(value, lead, number, tail)
    ensures
      NormalizeIssuer(value).Ok? ==>
        exists lead, number, tail ::
          IssuerParts(value, lead, number, tail) && NormalizeIssuer(value).value == Zeros(12 - |number|) + number
    ensures NormalizeIssuer(value).Ok? ==> IsDigits(NormalizeIssuer(value).value, 12)
  {
    if NormalizeIssuer(value).Ok? {
      var lead, tail := TrimmedParts(value);
      assert IssuerParts(value, lead, Trim(value), tail);
      if |Trim(value)| == 12 {
        assert Zeros(0) + Trim(value) == Trim(value);
      }
    }
    if lead, number, tail :| IssuerParts(value, lead, number, tail) {
      PartsAreTrimmed(value, lead, number, tail);
    }
  }

  /** The number of the issuer can be read from the padded text. */
  lemma IssuerReadsBack(value: string)
    requires NormalizeIssuer(value).Ok?
    ensures AllDigits(Trim(value)) && Value(NormalizeIssuer(value).value) == Value(Trim(value))
  {
    var text := Trim(value);
    if |text| < 12 {
      ZerosAreWorthless(12 - |text|, text);
    }
  }

  /** Equal claves come from equal parts. */
  lemma EqualKeysEqualParts(
    d1: Date, issuer1: string, consecutive1: string, code1: string, situation1: Option<string>,
    d2: Date, issuer2: string, consecutive2: string, code2: string, situation2: Option<string>)
    requires d1.day < 100 && d1.month < 100 && d2.day < 100 && d2.month < 100
    requires BuildFiscalKey(d1, issuer1, consecutive1, code1, situation1).Ok?
    requires BuildFiscalKey(d1, issuer1, consecutive1, code1, situation1)
          == BuildFiscalKey(d2, issuer2, consecutive2, code2, situation2)
    ensures d1.day == d2.day && d1.month == d2.month && d1.year % 100 == d2.year % 100
    ensures NormalizeIssuer(issuer1) == NormalizeIssuer(issuer2)
    ensures consecutive1 == consecutive2 && code1 == code2 && SituationOf(situation1) == SituationOf(situation2)
  {
    KeyRoundTrip(d1, issuer1, consecutive1, code1, situation1);
    KeyRoundTrip(d2, issuer2, consecutive2, code2, situation2);
  }

  /** What a consecutive is built from. */
  datatype Numbering = Numbering(branchCode: string, terminalCode: string, documentType: DocumentType, value: int)

  function ConsecutiveFor(q: Numbering): Result<string, KeyError> {
    BuildConsecutive(q.branchCode, q.terminalCode, q.documentType, q.value)
  }

  /** Equal claves come from one sequence value: of one branch, terminal and document type. */
  lemma EqualKeysEqualNumberings(
    d1: Date, issuer1: string, q1: Numbering, code1: string, situation1: Option<string>,
    d2: Date, issuer2: string, q2: Numbering, code2: string, situation2: Option<string>)
    requires d1.day < 100 && d1.month < 100 && d2.day < 100 && d2.month < 100
    requires ConsecutiveFor(q1).Ok? && ConsecutiveFor(q2).Ok?
    requires BuildFiscalKey(d1, issuer1, ConsecutiveFor(q1).value, code1, situation1).Ok?
    requires BuildFiscalKey(d1, issuer1, ConsecutiveFor(q1).value, code1, situation1)
          == BuildFiscalKey(d2, issuer2, ConsecutiveFor(q2).value, code2, situation2)
    ensures q1 == q2
  {
    EqualKeysEqualParts(d1, issuer1, ConsecutiveFor(q1).value, code1, situation1,
                        d2, issuer2, ConsecutiveFor(q2).value, code2, situation2);
    ConsecutiveIsInjective(q1.branchCode, q1.terminalCode, q1.documentType, q1.value,
                           q2.branchCode, q2.terminalCode, q2.documentType, q2.value);
  }
}
