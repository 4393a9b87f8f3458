/**
 How the canonical text is spelled: the number grammar, the order of keys, the escapes and the
 three words, each stated on its own.
 */
module CanonicalText {
  import opened Common
  import opened CanonicalJson

  ghost predicate Reads(t: JsString, s: string) {
    |t| == |s| && forall i :: 0 <= i < |s| ==> t[i] == s[i] as int
  }

  // -- Numbers -----------------------------------------------------------------------------

  ghost predicate AllDigitUnits(t: JsString) {
    forall i :: 0 <= i < |t| ==> 0x30 <= t[i] <= 0x39
  }

  /** Digits without a leading zero, unless it is the only one. */
  ghost predicate IsWhole(t: JsString) {
    t != [] && AllDigitUnits(t) && (t[0] == 0x30 ==> |t| == 1)
  }

  /** Nothing, or a point and digits. */
  ghost predicate IsFractionPart(t: JsString) {
    t == [] || (|t| > 1 && t[0] == 0x2E && AllDigitUnits(t[1..]))
  }

  ghost predicate ExponentDigits(t: JsString, sign: JsString) {
    |sign| + 1 < |t| && t[1..|sign| + 1] == sign && AllDigitUnits(t[|sign| + 1..])
  }

  /** Nothing, or e or E, a sign or none, and digits. */
  ghost predicate IsExponentPart(t: JsString) {
    || t == []
    || (t[0] in {0x45, 0x65} && exists sign :: sign in {[], [0x2B], [0x2D]} && ExponentDigits(t, sign))
  }

  ghost predicate NumberParts(t: JsString, sign: JsString, whole: JsString, fraction: JsString, exponent: JsString) {
    && t == sign + (whole + (fraction + exponent)) && sign in {[], [0x2D]}
    && IsWhole(whole) && IsFractionPart(fraction) && IsExponentPart(exponent)
  }

  lemma {:induction false} RunOfDigits(digits: JsString, rest: JsString)
    requires AllDigitUnits(digits) && (rest == [] || !(0x30 <= rest[0] <= 0x39))
    ensures DigitRun(digits + rest) == |digits|
    decreases |digits|
  {
    if digits == [] {
      assert digits + rest == rest;
    } else {
      assert (digits + rest)[1..] == digits[1..] + rest;
      RunOfDigits(digits[1..], rest);
    }
  }

  lemma {:induction false} RunEnds(t: JsString)
    ensures AllDigitUnits(t[..DigitRun(t)])
    ensures DigitRun(t) < |t| ==> !(0x30 <= t[DigitRun(t)] <= 0x39)
    decreases |t|
  {
    if t != [] && DigitUnit(t[0]) {
      RunEnds(t[1..]);
    }
  }

  lemma WholeRun(t: JsString)
    ensures DigitRun(t) == |t| <==> AllDigitUnits(t)
  {
    RunEnds(t);
    assert t[..|t|] == t;
    if AllDigitUnits(t) {
      RunOfDigits(t, []);
      assert t + [] == t;
    }
  }

  lemma ExponentGrammar(t: JsString)
    ensures IsExponent(t) <==> IsExponentPart(t)
  {
    if t != [] && t[0] in {0x45, 0x65} {
      WholeRun(t[1..]);
      if |t| > 1 {
        WholeRun(t[2..]);
      }
      if IsExponent(t) {
        var sign: JsString := if |t| > 1 && (t[1] == 0x2B || t[1] == 0x2D) then [t[1]] else [];
        assert t[1..1] == [] && (|t| > 1 ==> t[1..2] == [t[1]]);
        assert ExponentDigits(t, sign);
      }
      if IsExponentPart(t) {
        var sign :| sign in {[], [0x2B], [0x2D]} && ExponentDigits(t, sign);
        if sign != [] {
          assert t[1..2][0] == sign[0];
        }
      }
    }
  }

  lemma FractionSplits(t: JsString) returns (fraction: JsString, exponent: JsString)
    requires IsFraction(t)
    ensures t == fraction + exponent && IsFractionPart(fraction) && IsExponentPart(exponent)
  {
    if t != [] && t[0] == 0x2E {
      var n := 1 + DigitRun(t[1..]);
      RunEnds(t[1..]);
      fraction, exponent := t[..n], t[n..];
      assert fraction[1..] == t[1..][..n - 1];
    } else {
      fraction, exponent := [], t;
    }
    ExponentGrammar(exponent);
  }

  lemma FractionJoins(fraction: JsString, exponent: JsString)
    requires IsFractionPart(fraction) && IsExponentPart(exponent)
    ensures IsFraction(fraction + exponent)
  {
    ExponentGrammar(exponent);
    var t := fraction + exponent;
    if fraction != [] {
      assert t[1..] == fraction[1..] + exponent;
      RunOfDigits(fraction[1..], exponent);
      assert t[|fraction|..] == exponent;
    } else {
      assert t == exponent;
    }
  }

  lemma UnsignedJoins(whole: JsString, fraction: JsString, exponent: JsString)
    requires IsWhole(whole) && IsFractionPart(fraction) && IsExponentPart(exponent)
    ensures IsUnsigned(whole + (fraction + exponent))
  {
    FractionJoins(fraction, exponent);
    RunOfDigits(whole, fraction + exponent);
    assert (whole + (fraction + exponent))[|whole|..] == fraction + exponent;
  }

  lemma UnsignedSplits(t: JsString) returns (whole: JsString, fraction: JsString, exponent: JsString)
    requires IsUnsigned(t)
    ensures t == whole + (fraction + exponent) && IsWhole(whole) && IsFractionPart(fraction) && IsExponentPart(exponent)
  {
    RunEnds(t);
    whole := t[..DigitRun(t)];
    fraction, exponent := FractionSplits(t[DigitRun(t)..]);
  }

  /** A numeral is a sign or none, digits, a fraction or none and an exponent or none, and nothing else is. */
  lemma NumeralGrammar(t: JsString)
    ensures IsNumeral(t) <==> exists sign, whole, fraction, exponent :: NumberParts(t, sign, whole, fraction, exponent)
  {
    if IsNumeral(t) {
      var sign: JsString := if t[0] == 0x2D then [0x2D] else [];
      var whole, fraction, exponent := UnsignedSplits(t[|sign|..]);
      assert t == sign + t[|sign|..];
      assert NumberParts(t, sign, whole, fraction, exponent);
    }
    if exists sign, whole, fraction, exponent :: NumberParts(t, sign, whole, fraction, exponent) {
      var sign, whole, fraction, exponent :| NumberParts(t, sign, whole, fraction, exponent);
      UnsignedJoins(whole, fraction, exponent);
      assert t[|sign|..] == whole + (fraction + exponent);
      assert sign == [] ==> t[0] == whole[0];
    }
  }

  // -- Order -------------------------------------------------------------------------------

  /** The first `k` units are the same, and then `a` ends or has the smaller unit. */
  ghost predicate FirstDifference(a: JsString, b: JsString, k: nat) {
    && k <= |a| && k < |b| && a[..k] == b[..k]
    && (k == |a| || a[k] < b[k])
  }

  /** Keys are ordered by their first different code unit, a prefix before what it begins. */
  lemma {:induction false} OrderIsByFirstDifference(a: JsString, b: JsString)
    ensures Below(a, b) <==> exists k: nat :: FirstDifference(a, b, k)
    decreases |a|
  {
    if b == [] {
    } else if a == [] || a[0] < b[0] {
      assert FirstDifference(a, b, 0);
    } else if a[0] == b[0] {
      OrderIsByFirstDifference(a[1..], b[1..]);
      assert a == [a[0]] + a[1..] && b == [b[0]] + b[1..];
      if Below(a, b) {
        var k: nat :| FirstDifference(a[1..], b[1..], k);
        assert a[..k + 1] == [a[0]] + a[1..][..k] && b[..k + 1] == [b[0]] + b[1..][..k];
        assert FirstDifference(a, b, k + 1);
      }
      if exists k: nat :: FirstDifference(a, b, k) {
        var k: nat :| FirstDifference(a, b, k);
        assert k > 0;
        assert a[1..][..k - 1] == a[..k][1..] && b[1..][..k - 1] == b[..k][1..];
        assert FirstDifference(a[1..], b[1..], k - 1);
      }
    } else {
      assert forall k: nat :: k > 0 && k <= |a| && k < |b| ==> a[..k][0] == a[0] && b[..k][0] == b[0];
    }
  }

  // -- Strings -----------------------------------------------------------------------------

  /** The digits 0-9a-f, in lower case. */
  ghost function HexDigitValue(u: CodeUnit): int {
    if 0x30 <= u <= 0x39 then u - 0x30 else if 0x61 <= u <= 0x66 then u - 0x57 else -1
  }

  ghost predicate IsHexEscape(t: JsString, u: CodeUnit) {
    && |t| == 6 && t[0] == 0x5C && t[1] == 0x75
    && (forall i :: 2 <= i < 6 ==> 0 <= HexDigitValue(t[i]) < 16)
    && HexDigitValue(t[2]) * 4096 + HexDigitValue(t[3]) * 256 + HexDigitValue(t[4]) * 16 + HexDigitValue(t[5]) == u
  }

  lemma HexIsEscape(u: CodeUnit)
    ensures IsHexEscape(HexEscape(u), u)
  {
    HexDigitsAdd(u);
  }

  /** One unit on its own: quote, backslash, five short escapes, \u for other controls and lone surrogates. */
  lemma UnitsAreEscaped(u: CodeUnit)
    ensures
      var t := Escape([u]);
      if u == 0x22 then Reads(t, "\\\"")
      else if u == 0x5C then Reads(t, "\\\\")
      else if u == 8 then Reads(t, "\\b")
      else if u == 9 then Reads(t, "\\t")
      else if u == 10 then Reads(t, "\\n")
      else if u == 12 then Reads(t, "\\f")
      else if u == 13 then Reads(t, "\\r")
      else if u < 0x20 || 0xD800 <= u <= 0xDFFF then IsHexEscape(t, u)
      else t == [u]
  {
    HexIsEscape(u);
    assert Escape([u]) == EscapeUnit(u) + Escape([u][1..]);
    assert EscapeUnit(u) + [] == EscapeUnit(u);
  }

  lemma PairsStay(high: CodeUnit, low: CodeUnit)
    requires 0xD800 <= high <= 0xDBFF && 0xDC00 <= low <= 0xDFFF
    ensures Escape([high, low]) == [high, low]
  {
    assert [high, low][2..] == [];
  }

  /** A string is escaped piece by piece, as long as no surrogate pair is cut. */
  lemma {:induction false} EscapesJoin(a: JsString, b: JsString)
    requires a != [] && b != [] && 0xD800 <= a[|a| - 1] <= 0xDBFF ==> !(0xDC00 <= b[0] <= 0xDFFF)
    ensures Escape(a + b) == Escape(a) + Escape(b)
    decreases |a|
  {
    if a == [] {
      assert a + b == b;
    } else if StartsWithPair(a) {
      assert (a + b)[2..] == a[2..] + b;
      EscapesJoin(a[2..], b);
    } else {
      assert (a + b)[1..] == a[1..] + b;
      assert !StartsWithPair(a + b);
      EscapesJoin(a[1..], b);
      assert Escape(a + b) == EscapeUnit(a[0]) + Escape(a[1..] + b);
    }
  }

  lemma WordsAreLiteral()
    ensures Reads(StableStringify(Null), "null")
    ensures Reads(StableStringify(Bool(true)), "true") && Reads(StableStringify(Bool(false)), "false")
    ensures Reads(StableStringify(Arr([])), "[]") && Reads(StableStringify(Obj([])), "{}")
  {
    assert SortByKey<JsString>([]) == [];
    assert MemberTexts([]) == [];
  }
}
