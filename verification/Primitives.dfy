/** The lexical types of MIG 4.1 that the F0401 document is built from. */
module Primitives {
  import opened Wrappers
  import opened Decimal
  import opened Splitting

  predicate IsUpper(c: char) { 'A' <= c <= 'Z' }

  function TwoDigits(s: string): nat
    requires |s| == 2 && AllDigits(s)
  {
    10 * (s[0] as int - '0' as int) + (s[1] as int - '0' as int)
  }

  predicate IsBan(s: string) { 8 <= |s| <= 10 && AllDigits(s) }

  predicate IsInvoiceNumber(s: string) {
    |s| == 10 && IsUpper(s[0]) && IsUpper(s[1]) && AllDigits(s[2..])
  }

  predicate IsDate(s: string) {
    |s| == 8 && AllDigits(s) && 1 <= TwoDigits(s[4..6]) <= 12 && 1 <= TwoDigits(s[6..8]) <= 31
  }

  predicate IsTime(s: string) {
    && |s| == 8 && s[2] == ':' && s[5] == ':'
    && AllDigits(s[0..2]) && AllDigits(s[3..5]) && AllDigits(s[6..8])
    && TwoDigits(s[0..2]) <= 23 && TwoDigits(s[3..5]) <= 59 && TwoDigits(s[6..8]) <= 59
  }

  predicate IsCurrency(s: string) { |s| == 3 && forall i :: 0 <= i < 3 ==> IsUpper(s[i]) }

  type Ban = s: string | IsBan(s) witness "00000000"
  type InvoiceNumber = s: string | IsInvoiceNumber(s) witness "AA00000000"
  type MigDate = s: string | IsDate(s) witness "00000101"
  type MigTime = s: string | IsTime(s) witness "00:00:00"
  type CurrencyCode = s: string | IsCurrency(s) witness "AAA"
  type ZeroTaxRateReason = n: nat | 71 <= n <= 79 witness 71

  const B2C_BUYER := "0000000000"

  /** Gregorian calendar check of a date that has the MIG shape. */
  predicate IsCalendarDate(date: MigDate) {
    var year := Value(date[..4]);
    var month, day := TwoDigits(date[4..6]), TwoDigits(date[6..8]);
    var leap := year % 400 == 0 || (year % 4 == 0 && year % 100 != 0);
    day <= (if month in {4, 6, 9, 11} then 30 else if month != 2 then 31 else if leap then 29 else 28)
  }

  // ---------------------------------------------------------------- decimals

  datatype DecimalError = InvalidDecimal | NegativeDecimal | DecimalPrecision(maxTotal: nat, maxFraction: nat)

  /** `MigDecimal::parse`: the value is kept as text, only its shape is checked. */
  function ParseDecimal(value: string, maxTotal: nat, maxFraction: nat, nonNegative: bool)
      : Result<string, DecimalError> {
    var negative := value != "" && value[0] == '-';
    var unsigned := if negative then value[1..] else value;
    if unsigned == "" || (value != "" && value[0] == '+') then Failure(InvalidDecimal)
    else if nonNegative && negative then Failure(NegativeDecimal)
    else
      var parts := SplitOn(unsigned, '.');
      if |parts| > 2 || parts[0] == "" || !AllDigits(parts[0]) ||
         (|parts| == 2 && (parts[1] == "" || !AllDigits(parts[1])))
      then Failure(InvalidDecimal)
      else
        var fraction := if |parts| == 2 then |parts[1]| else 0;
        if |parts[0]| + fraction > maxTotal || fraction > maxFraction
        then Failure(DecimalPrecision(maxTotal, maxFraction))
        else Success(value)
  }

  /** An optional sign, digits, and optionally a point and more digits. */
  datatype DecimalText = DecimalText(negative: bool, integer: string, fraction: Option<string>) {
    predicate Valid() {
      integer != "" && AllDigits(integer) && (fraction.Some? ==> fraction.value != "" && AllDigits(fraction.value))
    }

    function Render(): string {
      (if negative then "-" else "") + integer + (if fraction.Some? then "." + fraction.value else "")
    }

    function FractionDigits(): nat { if fraction.Some? then |fraction.value| else 0 }

    /** The value is `Coefficient() / 10^FractionDigits()`. */
    function Coefficient(): int
      requires Valid()
    {
      var digits := integer + (if fraction.Some? then fraction.value else "");
      if negative then -(Value(digits) as int) else Value(digits)
    }
  }

  function Power10(n: nat): (r: nat)
    ensures r >= 1
  {
    if n == 0 then 1 else 10 * Power10(n - 1)
  }

  lemma {:induction false} ValueBound(s: string)
    requires AllDigits(s)
    ensures Value(s) < Power10(|s|)
  {
    if s != "" {
      ValueBound(s[..|s| - 1]);
    }
  }

  lemma {:induction false} Power10Monotone(m: nat, n: nat)
    requires m <= n
    ensures Power10(m) <= Power10(n)
    decreases n
  {
    if m < n {
      Power10Monotone(m, n - 1);
    }
  }

  lemma DigitsHaveNoPoint(s: string)
    requires AllDigits(s)
    ensures '.' !in s && (s != "" ==> s[0] != '-' && s[0] != '+')
  {
  }

  /** Splitting the unsigned part recovers the pieces of a decimal. */
  lemma SplitDecimal(d: DecimalText)
    requires d.Valid()
    ensures SplitOn(d.integer + (if d.fraction.Some? then "." + d.fraction.value else ""), '.') ==
            if d.fraction.Some? then [d.integer, d.fraction.value] else [d.integer]
  {
    DigitsHaveNoPoint(d.integer);
    if d.fraction.Some? {
      DigitsHaveNoPoint(d.fraction.value);
      SplitWhole(d.fraction.value, '.');
      SplitFirst(d.integer, d.fraction.value, '.');
    } else {
      assert d.integer + "" == d.integer;
      SplitWhole(d.integer, '.');
    }
  }

  /** What the text of a decimal is answered. */
  lemma ParsedText(d: DecimalText, maxTotal: nat, maxFraction: nat, nonNegative: bool)
    requires d.Valid()
    ensures ParseDecimal(d.Render(), maxTotal, maxFraction, nonNegative) ==
            if nonNegative && d.negative then Failure(NegativeDecimal)
            else if |d.integer| + d.FractionDigits() > maxTotal || d.FractionDigits() > maxFraction
            then Failure(DecimalPrecision(maxTotal, maxFraction))
            else Success(d.Render())
  {
    var unsigned := d.integer + (if d.fraction.Some? then "." + d.fraction.value else "");
    DigitsHaveNoPoint(d.integer);
    SplitDecimal(d);
    if d.negative {
      assert d.Render() == "-" + unsigned;
      assert d.Render()[1..] == unsigned;
    } else {
      assert d.Render() == unsigned;
    }
  }

  /** Every decimal within the facets is accepted, unchanged. */
  lemma ParseAccepts(d: DecimalText, maxTotal: nat, maxFraction: nat, nonNegative: bool)
    requires d.Valid() && |d.integer| + d.FractionDigits() <= maxTotal && d.FractionDigits() <= maxFraction
    requires nonNegative ==> !d.negative
    ensures ParseDecimal(d.Render(), maxTotal, maxFraction, nonNegative) == Success(d.Render())
  {
    ParsedText(d, maxTotal, maxFraction, nonNegative);
  }

  lemma Joined(parts: seq<string>)
    requires 1 <= |parts| <= 2
    ensures JoinWith(parts, '.') == parts[0] + (if |parts| == 2 then "." + parts[1] else "")
  {
    if |parts| == 2 {
      assert parts[1..] == [parts[1]];
    }
  }

  lemma Rendered(d: DecimalText, unsigned: string, value: string)
    requires value != "" && (d.negative <==> value[0] == '-')
    requires unsigned == if d.negative then value[1..] else value
    requires unsigned == d.integer + (if d.fraction.Some? then "." + d.fraction.value else "")
    ensures d.Render() == value
  {
    var tail := if d.fraction.Some? then "." + d.fraction.value else "";
    if d.negative {
      assert "-" + (d.integer + tail) == "-" + d.integer + tail;
      assert "-" + value[1..] == value;
    } else {
      assert "" + d.integer == d.integer;
    }
  }

  /** The accepted text, taken apart. */
  lemma AcceptedDecimal(value: string, maxTotal: nat, maxFraction: nat, nonNegative: bool) returns (d: DecimalText)
    requires ParseDecimal(value, maxTotal, maxFraction, nonNegative).Success?
    ensures d.Valid() && d.Render() == value && (nonNegative ==> !d.negative)
    ensures |d.integer| + d.FractionDigits() <= maxTotal && d.FractionDigits() <= maxFraction
  {
    hide AllDigits, SplitOn, JoinWith, DecimalText.Render;
    var negative := value[0] == '-';
    var unsigned := if negative then value[1..] else value;
    var parts := SplitOn(unsigned, '.');
    JoinInvertsSplit(unsigned, '.');
    Joined(parts);
    d := DecimalText(negative, parts[0], if |parts| == 2 then Some(parts[1]) else None);
    Rendered(d, unsigned, value);
  }

  lemma ConcatDigits(a: string, b: string)
    requires AllDigits(a) && AllDigits(b)
    ensures AllDigits(a + b)
  {
  }

  lemma CoefficientBound(d: DecimalText, maxTotal: nat)
    requires d.Valid() && |d.integer| + d.FractionDigits() <= maxTotal
    ensures -(Power10(maxTotal) as int) < d.Coefficient() < Power10(maxTotal)
    ensures !d.negative ==> d.Coefficient() >= 0
  {
    hide AllDigits, Value, Power10;
    if d.fraction.Some? {
      ConcatDigits(d.integer, d.fraction.value);
    } else {
      assert d.integer + "" == d.integer;
    }
    var digits := d.integer + (if d.fraction.Some? then d.fraction.value else "");
    ValueBound(digits);
    Power10Monotone(|digits|, maxTotal);
  }

  /**
    What is accepted is the text of a decimal whose value is N / 10^k with k at most
    `maxFraction` and |N| below 10^`maxTotal`, and is not negative when that is asked for.
   */
  lemma ParsedDecimal(value: string, maxTotal: nat, maxFraction: nat, nonNegative: bool) returns (d: DecimalText)
    requires ParseDecimal(value, maxTotal, maxFraction, nonNegative).Success?
    ensures d.Valid() && d.Render() == value
    ensures |d.integer| + d.FractionDigits() <= maxTotal && d.FractionDigits() <= maxFraction
    ensures nonNegative ==> !d.negative && d.Coefficient() >= 0
    ensures -(Power10(maxTotal) as int) < d.Coefficient() < Power10(maxTotal)
  {
    hide ParseDecimal, Power10, AllDigits;
    d := AcceptedDecimal(value, maxTotal, maxFraction, nonNegative);
    CoefficientBound(d, maxTotal);
  }

  /** `value` is the text of a decimal. */
  ghost predicate IsText(value: string) { exists d: DecimalText :: d.Valid() && d.Render() == value }

  /** `value` is the text of a decimal with too many digits. */
  ghost predicate IsTooPrecise(value: string, maxTotal: nat, maxFraction: nat) {
    exists d: DecimalText ::
      && d.Valid() && d.Render() == value
      && (|d.integer| + d.FractionDigits() > maxTotal || d.FractionDigits() > maxFraction)
  }

  /** What is refused for its precision only is the text of a decimal. */
  lemma ImpreciseIsText(value: string, maxTotal: nat, maxFraction: nat, nonNegative: bool) returns (d: DecimalText)
    requires ParseDecimal(value, maxTotal, maxFraction, nonNegative) == Failure(DecimalPrecision(maxTotal, maxFraction))
    ensures d.Valid() && d.Render() == value
  {
    var parts := SplitOn(if value[0] == '-' then value[1..] else value, '.');
    var digits := |parts[0]| + if |parts| == 2 then |parts[1]| else 0;
    hide SplitOn, AllDigits;
    assert ParseDecimal(value, digits, digits, nonNegative).Success?;
    d := AcceptedDecimal(value, digits, digits, nonNegative);
  }

  /**
    Why a text is refused: a minus sign where none may be, no decimal at all, or a decimal
    with too many digits, in this order.
   */
  lemma DecimalRefusals(value: string, maxTotal: nat, maxFraction: nat, nonNegative: bool)
    ensures var r, signed := ParseDecimal(value, maxTotal, maxFraction, nonNegative),
                             nonNegative && |value| > 1 && value[0] == '-';
            && (r == Failure(NegativeDecimal) <==> signed)
            && (r == Failure(InvalidDecimal) <==> !signed && !IsText(value))
            && (r == Failure(DecimalPrecision(maxTotal, maxFraction)) <==>
                  !signed && IsTooPrecise(value, maxTotal, maxFraction))
  {
    forall d: DecimalText | d.Valid() && d.Render() == value
      ensures d.negative <==> |value| > 1 && value[0] == '-'
      ensures ParseDecimal(value, maxTotal, maxFraction, nonNegative) ==
              if nonNegative && d.negative then Failure(NegativeDecimal)
              else if |d.integer| + d.FractionDigits() > maxTotal || d.FractionDigits() > maxFraction
              then Failure(DecimalPrecision(maxTotal, maxFraction))
              else Success(value)
    {
      DigitsHaveNoPoint(d.integer);
      ParsedText(d, maxTotal, maxFraction, nonNegative);
    }
    var r := ParseDecimal(value, maxTotal, maxFraction, nonNegative);
    if r.Success? {
      var d := AcceptedDecimal(value, maxTotal, maxFraction, nonNegative);
    } else if r == Failure(DecimalPrecision(maxTotal, maxFraction)) {
      var d := ImpreciseIsText(value, maxTotal, maxFraction, nonNegative);
    }
    hide SplitOn, AllDigits;
  }

  /** Acceptance by `ParseDecimal` under some facets. */
  predicate IsDecimal(s: string) { ParseDecimal(s, |s|, |s|, false).Success? }

  type MigDecimal = s: string | IsDecimal(s) witness "0"

  // ---------------------------------------------------------------- the calendar

  /** A date is one of the calendar exactly when its month has that many days in that year. */
  lemma CalendarExactly(date: MigDate)
    ensures var year, month, day := Value(date[..4]), TwoDigits(date[4..6]), TwoDigits(date[6..8]);
            && (month in {1, 3, 5, 7, 8, 10, 12} ==> IsCalendarDate(date))
            && (month in {4, 6, 9, 11} ==> (IsCalendarDate(date) <==> day != 31))
            && (month == 2 ==>
                  && (day <= 28 ==> IsCalendarDate(date)) && (day >= 30 ==> !IsCalendarDate(date))
                  && (day == 29 && year % 4 != 0 ==> !IsCalendarDate(date))
                  && (day == 29 && year % 4 == 0 && year % 100 != 0 ==> IsCalendarDate(date))
                  && (day == 29 && year % 100 == 0 && year % 400 != 0 ==> !IsCalendarDate(date))
                  && (day == 29 && year % 400 == 0 ==> IsCalendarDate(date)))
  {
    hide Value, TwoDigits;
  }
}
