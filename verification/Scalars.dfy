/**
 engine_args values and their models.ini text: how a scalar is rendered, and what an
 edited text is adopted as. What YAML makes of a text (`probe`) is a parameter.
 */
module Scalars {
  import opened Wrappers

  /** An engine_args value; a float is known by the text Go formats it as. */
  datatype Scalar = Str(s: string) | Bool(b: bool) | Int(n: int) | Float(text: string) | Null | Other

  function Digits(n: nat): string {
    if n < 10 then [('0' as int + n) as char] else Digits(n / 10) + [('0' as int + n % 10) as char]
  }

  function ScalarString(v: Scalar): Result<string> {
    match v
    case Str(s) => Ok(s)
    case Bool(b) => Ok(if b then "true" else "false")
    case Int(n) => Ok(if n < 0 then "-" + Digits(-n) else Digits(n))
    case Float(text) => Ok(text)
    case _ => Err
  }

  /** What yaml.Unmarshal makes of a text, when it accepts it. */
  type Probe = string -> Option<Scalar>

  function ScalarValue(probe: Probe, text: string): Scalar {
    match probe(text)
    case Some(Bool(b)) => Bool(b)
    case Some(Int(n)) => Int(n)
    case Some(Float(t)) => Float(t)
    case _ => Str(text)
  }

  /** The text comes back when the scalar it denotes is rendered. */
  predicate Survives(probe: Probe, text: string) {
    ScalarString(ScalarValue(probe, text)) == Ok(text)
  }

  // ------------------------------------------------------------------
  // A reader of its own
  // ------------------------------------------------------------------

  predicate IsDigit(c: char) { '0' <= c <= '9' }

  /** Decimal digits without a leading zero. */
  predicate IsDecimal(s: string) {
    s != "" && (s[0] == '0' ==> |s| == 1) && forall i :: 0 <= i < |s| ==> IsDigit(s[i])
  }

  /** The number that digits denote, the last one counting once and each other ten times the next. */
  function Number(s: string): nat
    requires forall i :: 0 <= i < |s| ==> IsDigit(s[i])
  {
    if s == "" then 0
    else
      assert IsDigit(s[|s| - 1]);
      10 * Number(s[..|s| - 1]) + (s[|s| - 1] as int - '0' as int)
  }

  /** The booleans, and decimals with an optional sign, as YAML's core schema reads them. */
  function Read(text: string): Option<Scalar> {
    if text == "true" then Some(Bool(true))
    else if text == "false" then Some(Bool(false))
    else if IsDecimal(text) then Some(Int(Number(text)))
    else if text != "" && text[0] == '-' && IsDecimal(text[1..]) then Some(Int(0 - Number(text[1..])))
    else if text != "" && text[0] == '+' && IsDecimal(text[1..]) then Some(Int(Number(text[1..])))
    else None
  }

  /** The probe reads booleans and decimals as they are written. */
  ghost predicate Agrees(probe: Probe) {
    forall text :: Read(text).Some? ==> probe(text) == Read(text)
  }

  lemma {:induction false} DigitsDenote(n: nat)
    ensures IsDecimal(Digits(n)) && Number(Digits(n)) == n && (Digits(n)[0] == '0' <==> n == 0)
  {
    if n >= 10 {
      DigitsDenote(n / 10);
      var s := Digits(n);
      assert s[..|s| - 1] == Digits(n / 10);
      assert forall i :: 0 <= i < |s| - 1 ==> s[i] == Digits(n / 10)[i];
    }
  }

  lemma {:induction false} NumberHasDigits(s: string)
    requires IsDecimal(s)
    ensures Digits(Number(s)) == s && (Number(s) == 0 <==> s == "0")
    decreases |s|
  {
    if |s| > 1 {
      var front := s[..|s| - 1];
      assert front[0] == s[0] && IsDigit(s[|s| - 1]);
      NumberHasDigits(front);
      assert s == front + [s[|s| - 1]];
    } else {
      assert s[..0] == "" && IsDigit(s[0]);
    }
  }

  /** Every boolean and every integer reads back from its text. */
  lemma RenderedScalarReadsBack(v: Scalar)
    requires v.Bool? || v.Int?
    ensures ScalarString(v).Ok? && Read(ScalarString(v).value) == Some(v)
  {
    if v.Int? && v.n < 0 {
      var text := Negated(-v.n);
      SignedReads(text);
    } else if v.Int? {
      DigitsDenote(v.n);
      UnsignedReads(Digits(v.n));
    }
  }

  /** The text of a negative number. */
  function Negated(n: nat): (text: string)
    ensures text == "-" + Digits(n) && text[0] == '-' && text[1..] == Digits(n)
    ensures IsDecimal(text[1..]) && Number(text[1..]) == n
  {
    DigitsDenote(n);
    "-" + Digits(n)
  }

  lemma UnsignedReads(text: string)
    requires IsDecimal(text)
    ensures Read(text) == Some(Int(Number(text)))
  {
    assert IsDigit(text[0]);
  }

  /** An adopted edit keeps its type: the text of a boolean or an integer is adopted as that boolean or integer. */
  lemma AdoptedScalarIsItself(probe: Probe, v: Scalar)
    requires Agrees(probe) && (v.Bool? || v.Int?)
    ensures ScalarString(v).Ok? && ScalarValue(probe, ScalarString(v).value) == v
  {
    RenderedScalarReadsBack(v);
  }

  /** A text that is neither a boolean nor a number is adopted as a string, and comes back. */
  lemma AnyOtherTextIsAString(probe: Probe, text: string)
    requires probe(text).None? || probe(text).value.Str? || probe(text).value.Null? || probe(text).value.Other?
    ensures ScalarValue(probe, text) == Str(text) && Survives(probe, text)
  {
  }

  /** Of the booleans and decimals exactly those without a plus sign, and not a negative zero, come back as they were written. */
  lemma SurvivesIff(probe: Probe, text: string)
    requires Agrees(probe) && Read(text).Some?
    ensures Survives(probe, text) <==> text[0] != '+' && text != "-0"
  {
    if IsDecimal(text) {
      NumberHasDigits(text);
      assert IsDigit(text[0]);
    } else if text != "true" && text != "false" {
      SignedSurvivesIff(probe, text);
    }
  }

  lemma SignedSurvivesIff(probe: Probe, text: string)
    requires Agrees(probe) && text != "" && text[0] in {'-', '+'} && IsDecimal(text[1..])
    ensures Survives(probe, text) <==> text[0] != '+' && text != "-0"
  {
    SignedReads(text);
    SignedRenders(text, text[1..]);
    assert ScalarValue(probe, text) == Int(Signed(text[0], text[1..]));
    UnsignedTextIsShorter(text, text[1..]);
  }

  function Signed(sign: char, digits: string): int
    requires IsDecimal(digits)
  {
    if sign == '-' then 0 - Number(digits) else Number(digits)
  }

  /** A signed decimal is rendered without a plus sign, and zero without any. */
  lemma SignedRenders(text: string, digits: string)
    requires text != "" && text[0] in {'-', '+'} && digits == text[1..] && IsDecimal(digits)
    ensures ScalarString(Int(Signed(text[0], digits))) == Ok(if text[0] == '+' || digits == "0" then digits else text)
  {
    NumberHasDigits(digits);
    assert text == [text[0]] + digits;
  }

  /** Written without its sign a number is another text. */
  lemma UnsignedTextIsShorter(text: string, digits: string)
    requires text != "" && text[1..] == digits
    ensures digits != text && (text == "-0" <==> text[0] == '-' && digits == "0")
  {
    assert |text| == |digits| + 1 && text == [text[0]] + digits;
  }

  lemma SignedReads(text: string)
    requires text != "" && text[0] in {'-', '+'} && IsDecimal(text[1..])
    ensures Read(text) == Some(Int(Signed(text[0], text[1..])))
  {
    assert !IsDigit(text[0]);
    assert "true"[0] == 't' && "false"[0] == 'f';
  }
}
