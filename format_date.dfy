/**
 * Launch-date display: renders a calendar date at the precision the launch
 * record declares (year, half, quarter, month, day or hour), using the
 * day.js format tokens of the English locale with the advanced-format plugin.
 */
module FormatDate {
  import opened Strings

  /**
   * The `date_precision` tag of a launch record. `Unrecognised` carries any string other
   * than the six known tags; `PrecisionOf` is the only way a tag becomes a `Precision`.
   */
  datatype Precision = Year | Half | Quarter | Month | Day | Hour | Unrecognised(tag: string)

  /** The `switch` on the tag: the six known strings select their case, anything else falls back. */
  function PrecisionOf(tag: string): (p: Precision)
    ensures p == Year <==> tag == "year"
    ensures p == Half <==> tag == "half"
    ensures p == Quarter <==> tag == "quarter"
    ensures p == Month <==> tag == "month"
    ensures p == Day <==> tag == "day"
    ensures p == Hour <==> tag == "hour"
    ensures p.Unrecognised? <==> tag !in {"year", "half", "quarter", "month", "day", "hour"}
    ensures p.Unrecognised? ==> p.tag == tag
  {
    match tag
    case "year" => Year
    case "half" => Half
    case "quarter" => Quarter
    case "month" => Month
    case "day" => Day
    case "hour" => Hour
    case _ => Unrecognised(tag)
  }

  type MonthIndex = m: nat | m < 12       // zero-based, as day.js `month()`
  type DayOfMonth = d: nat | 1 <= d <= 31 witness 1
  type HourOfDay = h: nat | h < 24
  type MinuteOfHour = m: nat | m < 60

  /** The parsed date as day.js sees it in local time. */
  datatype CalendarDate = CalendarDate(
    year: nat, month: MonthIndex, day: DayOfMonth, hour: HourOfDay, minute: MinuteOfHour)

  // ---------------------------------------------------------------------------
  // Decimal digits
  // ---------------------------------------------------------------------------

  predicate AllDigits(s: string) {
    forall k :: 0 <= k < |s| ==> '0' <= s[k] <= '9'
  }

  function DigitChar(d: nat): (c: char)
    requires d < 10
    ensures '0' <= c <= '9' && (c - '0') as nat == d
  {
    ('0' as int + d) as char
  }

  /** The decimal numeral of `n`, with no leading zeros. */
  function DecimalString(n: nat): (numeral: string) {
    if n < 10 then [DigitChar(n)] else DecimalString(n / 10) + [DigitChar(n % 10)]
  }

  /** Reads a string of digits back as a number. */
  function ParseDecimal(s: string): (n: nat)
    requires AllDigits(s)
  {
    if |s| == 0 then 0 else ParseDecimal(s[..|s| - 1]) * 10 + (s[|s| - 1] - '0') as nat
  }

  /** The numeral is a non-empty string of digits without a leading zero that reads back as `n`. */
  lemma {:induction false} DecimalStringDigits(n: nat)
    ensures var s := DecimalString(n);
      |s| >= 1 && AllDigits(s) && (n >= 10 ==> s[0] != '0') && ParseDecimal(s) == n
  {
    var s := DecimalString(n);
    if n >= 10 {
      var front := DecimalString(n / 10);
      DecimalStringDigits(n / 10);
      var c := DigitChar(n % 10);
      assert s == front + [c];
      assert AllDigits(s) by {
        forall k | 0 <= k < |s| ensures '0' <= s[k] <= '9' {
          if k < |front| { assert s[k] == front[k]; } else { assert s[k] == c; }
        }
      }
      assert s[..|s| - 1] == front;
      assert s[0] == front[0];
      if n / 10 < 10 {
        assert front == [DigitChar(n / 10)];
      }
    }
  }

  function Pow10(k: nat): nat {
    if k == 0 then 1 else 10 * Pow10(k - 1)
  }

  lemma {:induction false} DecimalStringLength(n: nat, k: nat)
    requires 1 <= k
    ensures n < Pow10(k) ==> |DecimalString(n)| <= k
  {
    if n >= 10 && n < Pow10(k) {
      assert Pow10(1) == 10;
      assert k >= 2;
      assert n / 10 < Pow10(k - 1);
      DecimalStringLength(n / 10, k - 1);
    }
  }

  /** `s` padded on the left with `c` to at least `width` characters (String.padStart). */
  function PadStart(s: string, width: nat, c: char): (padded: string) {
    if |s| >= width then s else seq(width - |s|, _ => c) + s
  }

  lemma {:induction false} ParseLeadingZeros(z: string, s: string)
    requires forall k :: 0 <= k < |z| ==> z[k] == '0'
    requires AllDigits(s)
    ensures AllDigits(z + s)
    ensures ParseDecimal(z + s) == ParseDecimal(s)
    decreases |s| + |z|
  {
    if |s| == 0 {
      assert z + s == z;
      if |z| > 0 {
        ParseLeadingZeros(z[..|z| - 1], []);
        assert z[..|z| - 1] + [] == z[..|z| - 1];
      }
    } else {
      ParseLeadingZeros(z, s[..|s| - 1]);
      assert (z + s)[..|z + s| - 1] == z + s[..|s| - 1];
    }
  }

  /** A numeral padded with zeros is still digits, reads back the same, and has the padded width when it fits. */
  lemma PaddedNumeral(n: nat, width: nat)
    requires 1 <= width
    ensures var s := PadStart(DecimalString(n), width, '0');
      AllDigits(s) && ParseDecimal(s) == n && (n < Pow10(width) ==> |s| == width)
  {
    var digits := DecimalString(n);
    DecimalStringDigits(n);
    DecimalStringLength(n, width);
    if |digits| < width {
      var zeros := seq(width - |digits|, _ => '0');
      ParseLeadingZeros(zeros, digits);
    }
  }

  // ---------------------------------------------------------------------------
  // Format tokens
  // ---------------------------------------------------------------------------

  /** `YYYY`: the year padded with zeros to four digits; a wider year keeps all its digits. */
  function YearToken(year: nat): (token: string)
    ensures |token| >= 4 && |token| >= |DecimalString(year)|
    ensures token[|token| - |DecimalString(year)|..] == DecimalString(year)
  {
    PadStart(DecimalString(year), 4, '0')
  }

  lemma YearTokenDigits(year: nat)
    ensures var s := YearToken(year);
      AllDigits(s) && ParseDecimal(s) == year && (year <= 9999 ==> |s| == 4)
  {
    PaddedNumeral(year, 4);
    assert Pow10(4) == 10000;
  }

  const MonthNames: seq<string> := [
    "January", "February", "March", "April", "May", "June",
    "July", "August", "September", "October", "November", "December"]

  /** `MMMM`: the full month name. */
  function MonthName(m: MonthIndex): (name: string)
    ensures |name| >= 3 && ' ' !in name
  {
    MonthNames[m]
  }

  /** `Q`: the quarter, ceil((month + 1) / 3). */
  function QuarterOf(m: MonthIndex): (q: nat)
    ensures 1 <= q <= 4
    ensures 3 * (q - 1) < m + 1 <= 3 * q
  {
    m / 3 + 1
  }

  /** JavaScript's `%`, whose remainder takes the sign of the dividend. */
  function JsRemainder(a: int, b: nat): (r: int)
    requires b > 0
    ensures -(b as int) < r < b
    ensures a >= 0 ==> r == a % b
  {
    if a >= 0 then a % b else -((-a) % b)
  }

  const Suffixes: seq<string> := ["th", "st", "nd", "rd"]

  /**
   * The English locale's ordinal suffix: s[(v - 20) % 10] || s[v] || s[0], v = n % 100.
   * The table lookup agrees with the usual English rule for every n.
   */
  function OrdinalSuffix(n: nat): (suffix: string)
    ensures suffix == EnglishSuffix(n)
  {
    var v := n % 100;
    var i := JsRemainder(v - 20, 10);
    LastDigit(n);
    SuffixIndex(v);
    if 0 <= i < 4 then Suffixes[i]
    else if v < 4 then Suffixes[v]
    else Suffixes[0]
  }

  /** The usual English rule, stated independently of the locale's table lookup. */
  function EnglishSuffix(n: nat): (suffix: string) {
    if 11 <= n % 100 <= 13 then "th"
    else if n % 10 == 1 then "st"
    else if n % 10 == 2 then "nd"
    else if n % 10 == 3 then "rd"
    else "th"
  }

  /** The last digit of `n` is the last digit of its last two digits. */
  lemma LastDigit(n: nat)
    ensures n % 10 == (n % 100) % 10
  {
    var a, v := n / 100, n % 100;
    var b, u := v / 10, v % 10;
    assert n == 10 * (10 * a + b) + u;
  }

  /** Where the locale's lookup lands for the last two digits `v`. */
  lemma SuffixIndex(v: nat)
    requires v < 100
    ensures var i := JsRemainder(v - 20, 10);
      if v < 20 then (i == 0 <==> v % 10 == 0) && i <= 0
      else i == v % 10
  {
    var b, u := v / 10, v % 10;
    assert v == 10 * b + u;
    if v >= 20 {
      assert v - 20 == 10 * (b - 2) + u;
    } else if v >= 10 {
      assert 20 - v == 10 - u;
    } else {
      assert 20 - v == 10 + (10 - u);
    }
  }

  /** `Do`: the day of the month with its ordinal suffix. */
  function OrdinalDay(day: DayOfMonth): (text: string) {
    DecimalString(day) + OrdinalSuffix(day)
  }

  /** `h`: the hour on a twelve-hour clock, 12 for midnight and noon. */
  function Hour12(h: HourOfDay): (r: nat)
    ensures 1 <= r <= 12
    ensures r % 12 == h % 12
  {
    if h % 12 == 0 then 12 else h % 12
  }

  /** `a`: lower-case meridiem. */
  function Meridiem(h: HourOfDay): (marker: string)
    ensures marker == "am" <==> h < 12
    ensures marker == "pm" <==> h >= 12
  {
    if h < 12 then "am" else "pm"
  }

  /** `mm`: the minute padded to two digits; the last digit is the minute's last digit. */
  function MinuteToken(m: MinuteOfHour): (token: string)
    ensures |token| == 2
    ensures token[1] == DigitChar(m % 10)
  {
    DecimalStringLength(m, 2);
    assert Pow10(2) == 100;
    PadStart(DecimalString(m), 2, '0')
  }

  lemma MinuteTokenDigits(m: MinuteOfHour)
    ensures var s := MinuteToken(m);
      |s| == 2 && AllDigits(s) && ParseDecimal(s) == m
  {
    PaddedNumeral(m, 2);
    assert Pow10(2) == 100;
  }

  /** "Do MMMM YYYY" */
  function DayText(d: CalendarDate): (text: string) {
    OrdinalDay(d.day) + " " + MonthName(d.month) + " " + YearToken(d.year)
  }

  /** "h:mm a" */
  function ClockText(d: CalendarDate): (text: string) {
    DecimalString(Hour12(d.hour)) + ":" + MinuteToken(d.minute) + " " + Meridiem(d.hour)
  }

  /** "Do MMMM YYYY [at] h:mm a" */
  function HourText(d: CalendarDate): (text: string) {
    DayText(d) + " at " + ClockText(d)
  }

  // ---------------------------------------------------------------------------
  // formatLaunchDate
  // ---------------------------------------------------------------------------

  /**
   * The launch date at the given precision. Every output holds the padded year, so it is
   * never shorter than four characters, and an unrecognised tag falls back to the hour text.
   */
  function FormatLaunchDate(d: CalendarDate, precision: Precision): (text: string)
    ensures |text| >= 4
    ensures precision.Unrecognised? ==> text == HourText(d)
  {
    match precision
    case Year => YearToken(d.year)
    case Half => YearToken(d.year) + " (H" + (if d.month < 6 then "1" else "2") + ")"
    case Quarter => "Q" + DecimalString(QuarterOf(d.month)) + " " + YearToken(d.year)
    case Month => MonthName(d.month) + " " + YearToken(d.year)
    case Day => DayText(d)
    case Hour => HourText(d)
    case Unrecognised(_) => HourText(d)
  }

  /** Year precision shows only the year: four digits (for years up to 9999) that read back as the year. */
  lemma YearShowsOnlyYear(d: CalendarDate)
    ensures var text := FormatLaunchDate(d, Year);
      AllDigits(text) && ParseDecimal(text) == d.year && (d.year <= 9999 ==> |text| == 4)
  {
    YearTokenDigits(d.year);
  }

  /** Half precision: "YYYY (H1)" exactly for months January to June, else "YYYY (H2)". */
  lemma HalfYearRule(d: CalendarDate)
    ensures FormatLaunchDate(d, Half) == YearToken(d.year) + " (H1)" <==> d.month < 6
    ensures FormatLaunchDate(d, Half) == YearToken(d.year) + " (H2)" <==> d.month >= 6
  {
    HalfSuffixes(YearToken(d.year));
  }

  /** The two half-year suffixes, over any year text, and that they differ. */
  lemma HalfSuffixes(y: string)
    ensures y + " (H" + "1" + ")" == y + " (H1)"
    ensures y + " (H" + "2" + ")" == y + " (H2)"
    ensures y + " (H1)" != y + " (H2)"
  {
    assert (y + " (H1)")[|y| + 3] == '1';
    assert (y + " (H2)")[|y| + 3] == '2';
  }

  /** Quarter precision: "Q", the quarter digit 1-4 of the month, a space, then the year. */
  lemma QuarterShape(d: CalendarDate)
    ensures var text := FormatLaunchDate(d, Quarter);
      && |text| >= 3 && text[0] == 'Q'
      && text[1] == DigitChar(QuarterOf(d.month))
      && text[2] == ' '
      && EndsWith(text, YearToken(d.year))
  {
    var q := QuarterOf(d.month);
    var c := DigitChar(q);
    assert "Q" + DecimalString(q) + " " == ['Q', c, ' '];
    ThreeCharPrefix('Q', c, ' ', YearToken(d.year));
  }

  lemma ThreeCharPrefix(a: char, b: char, c: char, rest: string)
    ensures var text := [a, b, c] + rest;
      |text| >= 3 && text[0] == a && text[1] == b && text[2] == c && EndsWith(text, rest)
  {
  }

  /** Month precision: the month name, one space, then the year. */
  lemma MonthShape(d: CalendarDate)
    ensures var text := FormatLaunchDate(d, Month);
      var name := MonthName(d.month);
      && name <= text
      && text[|name|] == ' '
      && text[|name| + 1..] == YearToken(d.year)
  {
  }

  /** An unrecognised precision falls back to the hour format. */
  lemma UnrecognisedIsHour(d: CalendarDate, tag: string)
    ensures FormatLaunchDate(d, Unrecognised(tag)) == FormatLaunchDate(d, Hour)
  {
  }

  /** The day output is a prefix of the hour output for the same date. */
  lemma DayPrefixOfHour(d: CalendarDate)
    ensures FormatLaunchDate(d, Day) <= FormatLaunchDate(d, Hour)
    ensures FormatLaunchDate(d, Hour)[|FormatLaunchDate(d, Day)|..][..4] == " at "
  {
    AtJoin(DayText(d), ClockText(d));
  }

  lemma AtJoin(day: string, clock: string)
    ensures day <= day + " at " + clock
    ensures (day + " at " + clock)[|day|..][..4] == " at "
  {
    assert day + " at " + clock == day + (" at " + clock);
  }

  /** Two examples: a March date is in the first half, a September date in the second. */
  lemma HalfYearExamples()
    ensures FormatLaunchDate(CalendarDate(2024, 2, 15, 10, 0), Half) == "2024 (H1)"
    ensures FormatLaunchDate(CalendarDate(2024, 8, 15, 10, 0), Half) == "2024 (H2)"
  {
    var march := CalendarDate(2024, 2, 15, 10, 0);
    var september := CalendarDate(2024, 8, 15, 10, 0);
    HalfYearRule(march);
    HalfYearRule(september);
    Year2024();
  }

  lemma Year2024()
    ensures YearToken(2024) == "2024"
  {
    assert DecimalString(2024) == "2024" by {
      assert DecimalString(2) == "2";
      assert DecimalString(20) == "20";
      assert DecimalString(202) == "202";
    }
  }
}
