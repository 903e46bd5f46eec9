/**
 * Rendering of the time spent between two instants (`formatTimeSpent`,
 * src/utils/timeUtils.ts): whole hours below 24 hours, whole days from 24
 * hours on, rounded half up, the unit pluralised unless the amount is
 * exactly 1, and " ago" appended on request.
 *
 * Instants are integer milliseconds; the division and `Math.round` of the
 * source are exact integer arithmetic here. A missing end instant means now,
 * which is a parameter.
 */
module TimeUtils {
  import opened Types

  const MsPerHour: int := 3_600_000
  const MsPerDay: int := 86_400_000

  /** `Math.round(num / den)`: the nearest integer, a half rounded up. */
  function RoundHalfUp(num: int, den: int): (n: int)
    requires den > 0
    ensures 2 * n * den - den <= 2 * num < 2 * n * den + den
  {
    var q := (2 * num + den) / (2 * den);
    assert 2 * num + den == 2 * den * q + (2 * num + den) % (2 * den);
    q
  }

  datatype TimeUnit = Hour | Day

  /** An amount of whole units. */
  datatype Span = Span(amount: int, unit: TimeUnit)

  /**
   * The span shown for `elapsed` milliseconds: the unit is chosen on the
   * unrounded length (hours strictly below 24 hours, so any negative span is
   * in hours), then the amount is the length in that unit rounded half up.
   */
  function Measure(elapsed: int): (span: Span)
    ensures span.unit == Hour <==> elapsed < 24 * MsPerHour
    ensures span.unit == Hour ==>
              2 * span.amount * MsPerHour - MsPerHour <= 2 * elapsed < 2 * span.amount * MsPerHour + MsPerHour
    ensures span.unit == Day ==>
              2 * span.amount * MsPerDay - MsPerDay <= 2 * elapsed < 2 * span.amount * MsPerDay + MsPerDay
  {
    if elapsed < 24 * MsPerHour then Span(RoundHalfUp(elapsed, MsPerHour), Hour)
    else Span(RoundHalfUp(elapsed, MsPerDay), Day)
  }

  function DigitChar(d: nat): (c: char)
    requires d < 10
    ensures '0' <= c <= '9'
  {
    "0123456789"[d]
  }

  /** Decimal digits of `n`, most significant first, without leading zeros. */
  function NatToString(n: nat): (s: string)
    ensures |s| > 0
    ensures forall i :: 0 <= i < |s| ==> '0' <= s[i] <= '9'
  {
    if n < 10 then [DigitChar(n)] else NatToString(n / 10) + [DigitChar(n % 10)]
  }

  /** `${n}` for an integer `n`. */
  function IntToString(n: int): (s: string)
    ensures |s| > 0 && ' ' !in s
  {
    if n < 0 then "-" + NatToString(-n) else NatToString(n)
  }

  function UnitWord(unit: TimeUnit): string {
    match unit
    case Hour => "hour"
    case Day => "day"
  }

  /** "<amount> <unit>", the unit in the plural unless the amount is exactly 1. */
  function SpanText(span: Span): (text: string)
    ensures |text| > 0
    ensures text[|text| - 1] == 's' <==> span.amount != 1
    ensures text[|text| - 1] != 'o'
  {
    IntToString(span.amount) + " " + UnitWord(span.unit) + (if span.amount != 1 then "s" else "")
  }

  predicate HasAgoSuffix(text: string) {
    |text| >= 4 && text[|text| - 4..] == " ago"
  }

  /**
   * `formatTimeSpent(start, end, includeSuffix)`; an absent `end` stands for
   * `now`. The text carries the " ago" suffix exactly when it was asked for.
   */
  function FormatTimeSpent(start: Instant, end: Option<Instant>, now: Instant, includeSuffix: bool): (text: string)
    ensures HasAgoSuffix(text) <==> includeSuffix
  {
    var elapsed := (if end.Some? then end.value else now) - start;
    Render(Measure(elapsed), includeSuffix)
  }

  /** The text of `span`, followed by " ago" when the suffix is requested. */
  function Render(span: Span, includeSuffix: bool): string {
    var timeString := SpanText(span);
    if includeSuffix then timeString + " ago" else timeString
  }

  // Reading a rendered text back.

  function DigitValue(c: char): (d: nat)
    requires '0' <= c <= '9'
    ensures d < 10
  {
    (c as int) - ('0' as int)
  }

  /** The number a non-empty string of decimal digits denotes. */
  function ParseNat(s: string): Option<nat> {
    if |s| == 0 || !('0' <= s[|s| - 1] <= '9') then None
    else if |s| == 1 then Some(DigitValue(s[0]))
    else match ParseNat(s[..|s| - 1])
      case None => None
      case Some(prefix) => Some(prefix * 10 + DigitValue(s[|s| - 1]))
  }

  function ParseInt(s: string): Option<int> {
    if |s| > 0 && s[0] == '-' then
      match ParseNat(s[1..])
      case None => None
      case Some(n) => Some(0 - n)
    else
      match ParseNat(s)
      case None => None
      case Some(n) => Some(n)
  }

  /** The position of the first space in `s`, or `|s|` when there is none. */
  function FirstSpace(s: string): (k: nat)
    ensures k <= |s|
    ensures ' ' !in s[..k]
    ensures k < |s| ==> s[k] == ' '
  {
    if |s| == 0 then 0
    else if s[0] == ' ' then 0
    else
      var k := 1 + FirstSpace(s[1..]);
      assert s[..k] == [s[0]] + s[1..][..k - 1];
      k
  }

  /** The unit named by a word, with whether the word is in the plural. */
  function ParseUnit(word: string): Option<(TimeUnit, bool)> {
    if word == "hour" then Some((Hour, false))
    else if word == "hours" then Some((Hour, true))
    else if word == "day" then Some((Day, false))
    else if word == "days" then Some((Day, true))
    else None
  }

  /** Recovers the span and the suffix flag from a rendered text, or `None` for any other text. */
  function ParseTimeSpent(text: string): Option<(Span, bool)> {
    var suffix := HasAgoSuffix(text);
    var body := if suffix then text[..|text| - 4] else text;
    var k := FirstSpace(body);
    if k == |body| then None
    else
      match (ParseInt(body[..k]), ParseUnit(body[k + 1..]))
      case (Some(amount), Some((unit, plural))) =>
        if plural == (amount != 1) then Some((Span(amount, unit), suffix)) else None
      case _ => None
  }

  lemma {:induction false} ParseNatToString(n: nat)
    ensures ParseNat(NatToString(n)) == Some(n)
  {
    var s := NatToString(n);
    if n >= 10 {
      ParseNatToString(n / 10);
      assert s[..|s| - 1] == NatToString(n / 10);
      assert DigitValue(s[|s| - 1]) == n % 10;
    } else {
      assert DigitValue(s[0]) == n;
    }
  }

  lemma ParseIntToString(n: int)
    ensures ParseInt(IntToString(n)) == Some(n)
  {
    if n < 0 {
      ParseNegative(n);
    } else {
      ParseNonNegative(n);
    }
  }

  lemma ParseNegative(n: int)
    requires n < 0
    ensures ParseInt(IntToString(n)) == Some(n)
  {
    ParseNatToString(-n);
    ParseSigned(NatToString(-n), -n);
  }

  /** A minus sign before the digits of `m` reads back as `-m`. */
  lemma ParseSigned(digits: string, m: nat)
    requires ParseNat(digits) == Some(m)
    ensures ParseInt("-" + digits) == Some(-(m as int))
  {
    assert ("-" + digits)[1..] == digits;
  }

  lemma ParseNonNegative(n: int)
    requires n >= 0
    ensures ParseInt(IntToString(n)) == Some(n)
  {
    ParseNatToString(n);
    assert '0' <= NatToString(n)[0] <= '9';
    ParseUnsigned(NatToString(n), n);
  }

  /** Digits that do not start with a minus sign read back as the number they denote. */
  lemma ParseUnsigned(digits: string, m: nat)
    requires ParseNat(digits) == Some(m)
    requires |digits| > 0 && '0' <= digits[0] <= '9'
    ensures ParseInt(digits) == Some(m)
  {
  }

  lemma ParseUnitWord(unit: TimeUnit, amount: int)
    ensures ParseUnit(UnitWord(unit) + (if amount != 1 then "s" else "")) == Some((unit, amount != 1))
  {
  }

  /** A rendered span text reads back as that span. */
  lemma ParseSpanText(span: Span)
    ensures var body := SpanText(span); var k := FirstSpace(body);
      && k < |body|
      && ParseInt(body[..k]) == Some(span.amount)
      && ParseUnit(body[k + 1..]) == Some((span.unit, span.amount != 1))
  {
    var number := IntToString(span.amount);
    var word := UnitWord(span.unit) + (if span.amount != 1 then "s" else "");
    var body := SpanText(span);
    assert body == number + " " + word;
    assert body[..|number|] == number;
    FirstSpaceIsPrefixEnd(body, |number|);
    assert body[|number| + 1..] == word;
    ParseIntToString(span.amount);
    ParseUnitWord(span.unit, span.amount);
  }

  /** A span's text, with or without the suffix, reads back as that span and that choice. */
  lemma ParseRendered(span: Span, includeSuffix: bool)
    ensures ParseTimeSpent(Render(span, includeSuffix)) == Some((span, includeSuffix))
  {
    if includeSuffix {
      ParseWithSuffix(span);
    } else {
      ParseWithoutSuffix(span);
    }
  }

  lemma ParseWithSuffix(span: Span)
    ensures ParseTimeSpent(SpanText(span) + " ago") == Some((span, true))
  {
    var body := SpanText(span);
    var text := body + " ago";
    assert text[|text| - 4..] == " ago";
    assert text[..|text| - 4] == body;
    ParseSpanText(span);
  }

  lemma ParseWithoutSuffix(span: Span)
    ensures ParseTimeSpent(SpanText(span)) == Some((span, false))
  {
    assert !HasAgoSuffix(SpanText(span));
    ParseSpanText(span);
  }

  /** Reading back a rendered text yields the measured span of the elapsed time and the suffix flag. */
  lemma FormatTimeSpentRoundTrip(start: Instant, end: Option<Instant>, now: Instant, includeSuffix: bool)
    ensures ParseTimeSpent(FormatTimeSpent(start, end, now, includeSuffix))
         == Some((Measure((if end.Some? then end.value else now) - start), includeSuffix))
  {
    ParseRendered(Measure((if end.Some? then end.value else now) - start), includeSuffix);
  }

  lemma FirstSpaceIsPrefixEnd(s: string, k: nat)
    requires k < |s| && s[k] == ' ' && ' ' !in s[..k]
    ensures FirstSpace(s) == k
  {
  }

  /** Worked examples: one hour; twenty-five hours is one day; 23.5 hours rounds to 24 but stays in hours. */
  lemma MeasureExamples()
    ensures Measure(3_600_000) == Span(1, Hour)
    ensures Measure(90_000_000) == Span(1, Day)
    ensures Measure(84_600_000) == Span(24, Hour)
    ensures Measure(-1_800_000) == Span(0, Hour)
  {
  }

  lemma TextExamples()
    ensures SpanText(Span(1, Hour)) == "1 hour"
    ensures SpanText(Span(1, Day)) + " ago" == "1 day ago"
    ensures SpanText(Span(24, Hour)) == "24 hours"
  {
  }
}
