/**
 The textual forms the validators recognise: integer path segments and
 numeric strings, together with the numbers they denote, and the decimal
 rendering of a product id as it appears in a request path.
 */
module Text {

  predicate IsDigit(c: char) {
    '0' <= c <= '9'
  }

  /** One or more decimal digits and nothing else. */
  predicate IsDigits(s: string) {
    |s| > 0 && forall i | 0 <= i < |s| :: IsDigit(s[i])
  }

  predicate HasSign(s: string) {
    |s| > 0 && (s[0] == '+' || s[0] == '-')
  }

  predicate IsNegative(s: string) {
    |s| > 0 && s[0] == '-'
  }

  /** The text after an optional leading sign. */
  function Unsigned(s: string): string {
    if HasSign(s) then s[1..] else s
  }

  /** Integer syntax: an optional sign followed by one or more digits. */
  predicate IntText(s: string) {
    IsDigits(Unsigned(s))
  }

  /**
   Numeric syntax `[+-]?([0-9]*[.])?[0-9]+`: after an optional sign, digits
   with at most one decimal point, ending in a digit.
   */
  predicate NumericText(s: string) {
    var u := Unsigned(s);
    && |u| > 0
    && IsDigit(u[|u| - 1])
    && (forall i | 0 <= i < |u| :: IsDigit(u[i]) || u[i] == '.')
    && (forall i, j | 0 <= i < j < |u| :: u[i] != '.' || u[j] != '.')
  }

  /**
   Whether JavaScript writes the number without an exponent: `String(n)`
   switches to exponent form (`1e-7`, `1e+21`) below 10^-6 and from 10^21 on.
   */
  predicate FixedNotation(n: real) {
    var m := if n < 0.0 then -n else n;
    m == 0.0 || (0.000001 <= m && m < 1000000000000000000000.0)
  }

  function DigitValue(c: char): nat {
    if IsDigit(c) then c as int - '0' as int else 0
  }

  /** The number a run of digits denotes, most significant digit first. */
  function NatValue(s: string): nat {
    if |s| == 0 then 0 else NatValue(s[..|s| - 1]) * 10 + DigitValue(s[|s| - 1])
  }

  /** The integer an `IntText` denotes. */
  function IntValue(s: string): int {
    var m: int := NatValue(Unsigned(s));
    if IsNegative(s) then -m else m
  }

  /** Position of the first '.' in `u`, or `|u|` when there is none. */
  function DotIndex(u: string): (k: nat)
    ensures k <= |u|
    ensures k < |u| ==> u[k] == '.'
    ensures forall i | 0 <= i < k :: u[i] != '.'
  {
    if |u| == 0 then 0
    else if u[0] == '.' then 0
    else 1 + DotIndex(u[1..])
  }

  function Pow10(k: nat): (p: nat)
    ensures p > 0
  {
    if k == 0 then 1 else 10 * Pow10(k - 1)
  }

  /** The number a `NumericText` denotes: integer part plus fraction, negated under '-'. */
  function DecimalValue(s: string): real {
    var u := Unsigned(s);
    var k := DotIndex(u);
    var magnitude :=
      if k == |u| then NatValue(u) as real
      else NatValue(u[..k]) as real + NatValue(u[k + 1..]) as real / Pow10(|u| - k - 1) as real;
    if IsNegative(s) then -magnitude else magnitude
  }

  function DigitChar(d: nat): char
    requires d < 10
  {
    ('0' as int + d) as char
  }

  /** Decimal rendering of a natural number, as in the path `/api/products/${id}`. */
  function Show(n: nat): string {
    if n < 10 then [DigitChar(n)] else Show(n / 10) + [DigitChar(n % 10)]
  }

  /** Every rendered id is a run of digits that reads back as the same number. */
  lemma {:induction false} ShowDigits(n: nat)
    ensures IsDigits(Show(n))
    ensures NatValue(Show(n)) == n
  {
    if n < 10 {
      assert Show(n)[..0] == [];
    } else {
      ShowDigits(n / 10);
      var s := Show(n / 10);
      var t := s + [DigitChar(n % 10)];
      assert t[..|t| - 1] == s;
      assert forall i | 0 <= i < |s| :: t[i] == s[i];
    }
  }

  /** Round trip: rendering an id and parsing the path segment gives the id back. */
  lemma ShowParses(n: nat)
    ensures IntText(Show(n))
    ensures IntValue(Show(n)) == n
  {
    ShowDigits(n);
  }

  /** The path segments the router is exercised with: a word is rejected, ids are accepted. */
  lemma WitnessedSegments()
    ensures !IntText("not-valid-id")
    ensures IntText("1") && IntValue("1") == 1
    ensures IntText("2000") && IntValue("2000") == 2000
  {
    ShowParses(1);
    ShowParses(2000);
    assert Show(2000) == "2000";
    assert Show(1) == "1";
  }
}
