/**
  The ISO calendar-date form `YYYY-MM-DD` the seed ideas use, as `new Date`
  reads it for the feed's date sort. Only the order of dates matters to the
  feed, so a date is reduced to a key that orders like the calendar.
 */
module Dates {
  import opened Wrappers

  datatype Date = Date(year: int, month: int, day: int)

  predicate ValidDate(d: Date)
  {
    0 <= d.year <= 9999 && 1 <= d.month <= 12 && 1 <= d.day <= 31
  }

  /** `d` is strictly earlier than `e` in calendar order. */
  predicate Before(d: Date, e: Date)
  {
    d.year < e.year
    || (d.year == e.year && d.month < e.month)
    || (d.year == e.year && d.month == e.month && d.day < e.day)
  }

  predicate IsDigit(c: char)
  {
    '0' <= c <= '9'
  }

  function DigitValue(c: char): int
  {
    c as int - '0' as int
  }

  function DigitChar(n: int): char
    requires 0 <= n <= 9
  {
    ('0' as int + n) as char
  }

  /** The value of two decimal digits. */
  function TwoDigits(a: char, b: char): int
  {
    DigitValue(a) * 10 + DigitValue(b)
  }

  /** The value of four decimal digits. */
  function FourDigits(a: char, b: char, c: char, d: char): int
  {
    TwoDigits(a, b) * 100 + TwoDigits(c, d)
  }

  /** `s` has the shape `DDDD-DD-DD`. */
  predicate IsoShaped(s: string)
  {
    && |s| == 10
    && s[4] == '-' && s[7] == '-'
    && IsDigit(s[0]) && IsDigit(s[1]) && IsDigit(s[2]) && IsDigit(s[3])
    && IsDigit(s[5]) && IsDigit(s[6]) && IsDigit(s[8]) && IsDigit(s[9])
  }

  /** A digit character is the character of its value. */
  lemma DigitRoundTrip(c: char)
    requires IsDigit(c)
    ensures 0 <= DigitValue(c) <= 9 && DigitChar(DigitValue(c)) == c
  {
  }

  /** The digits of a two-digit value are the digits it was read from. */
  lemma TwoDigitsSplit(a: char, b: char)
    requires IsDigit(a) && IsDigit(b)
    ensures TwoDigits(a, b) / 10 == DigitValue(a) && TwoDigits(a, b) % 10 == DigitValue(b)
  {
  }

  /** The digits of a four-digit value are the digits it was read from. */
  lemma FourDigitsSplit(a: char, b: char, c: char, d: char)
    requires IsDigit(a) && IsDigit(b) && IsDigit(c) && IsDigit(d)
    ensures var n := FourDigits(a, b, c, d);
      && 0 <= n <= 9999
      && n / 1000 == DigitValue(a) && n / 100 % 10 == DigitValue(b)
      && n / 10 % 10 == DigitValue(c) && n % 10 == DigitValue(d)
  {
    var hi, lo := TwoDigits(a, b), TwoDigits(c, d);
    TwoDigitsSplit(a, b);
    TwoDigitsSplit(c, d);
    var n := hi * 100 + lo;
    assert n / 100 == hi && n % 100 == lo;
    assert n / 1000 == hi / 10;
    assert n / 10 == hi * 10 + lo / 10;
    assert n / 10 % 10 == lo / 10;
    assert n % 10 == lo % 10;
  }

  /** Reads `YYYY-MM-DD`; any other text is an invalid date (`None`). */
  function ParseDate(s: string): (r: Option<Date>)
    ensures r.Some? ==> IsoShaped(s) && ValidDate(r.value)
  {
    if !IsoShaped(s) then None
    else
      var d := Date(FourDigits(s[0], s[1], s[2], s[3]), TwoDigits(s[5], s[6]), TwoDigits(s[8], s[9]));
      if 1 <= d.month <= 12 && 1 <= d.day <= 31 then Some(d) else None
  }

  /**
    The date read from a text is the one whose formatting is that text. This
    is stated apart from `ParseDate` so that proofs about parsed dates do not
    carry the digit arithmetic of `FormatDate`.
   */
  lemma FormatParseDate(s: string)
    requires ParseDate(s).Some?
    ensures FormatDate(ParseDate(s).value) == s
  {
    FourDigitsSplit(s[0], s[1], s[2], s[3]);
    TwoDigitsSplit(s[5], s[6]);
    TwoDigitsSplit(s[8], s[9]);
    DigitRoundTrip(s[0]); DigitRoundTrip(s[1]); DigitRoundTrip(s[2]); DigitRoundTrip(s[3]);
    DigitRoundTrip(s[5]); DigitRoundTrip(s[6]); DigitRoundTrip(s[8]); DigitRoundTrip(s[9]);
  }

  /** Parsing and formatting are inverse: `s` reads as `d` exactly when `s` is `d` formatted. */
  lemma ParseDateIffFormat(s: string, d: Date)
    ensures ParseDate(s) == Some(d) <==> ValidDate(d) && s == FormatDate(d)
  {
    if ValidDate(d) && s == FormatDate(d) {
      ParseFormatDate(d);
    }
    if ParseDate(s) == Some(d) {
      FormatParseDate(s);
    }
  }

  /** A key that orders valid dates like the calendar (month and day fit in 9 bits). */
  function DayKey(d: Date): int
  {
    d.year * 512 + d.month * 32 + d.day
  }

  /** Comparing keys is comparing dates, in both directions. */
  lemma DayKeyOrdersDates(d: Date, e: Date)
    requires ValidDate(d) && ValidDate(e)
    ensures DayKey(d) < DayKey(e) <==> Before(d, e)
    ensures DayKey(d) == DayKey(e) <==> d == e
  {
  }

  /** Formats a valid date as `YYYY-MM-DD` with leading zeros. */
  function FormatDate(d: Date): (s: string)
    requires ValidDate(d)
    ensures IsoShaped(s)
  {
    [DigitChar(d.year / 1000), DigitChar(d.year / 100 % 10), DigitChar(d.year / 10 % 10), DigitChar(d.year % 10), '-',
     DigitChar(d.month / 10), DigitChar(d.month % 10), '-',
     DigitChar(d.day / 10), DigitChar(d.day % 10)]
  }

  lemma TwoDigitsOf(n: int)
    requires 0 <= n <= 99
    ensures TwoDigits(DigitChar(n / 10), DigitChar(n % 10)) == n
  {
  }

  lemma FourDigitsOf(n: int)
    requires 0 <= n <= 9999
    ensures FourDigits(DigitChar(n / 1000), DigitChar(n / 100 % 10), DigitChar(n / 10 % 10), DigitChar(n % 10)) == n
  {
    var hi, lo := n / 100, n % 100;
    TwoDigitsOf(hi);
    TwoDigitsOf(lo);
    var a, b, c, d := hi / 10, hi % 10, lo / 10, lo % 10;
    assert n == a * 1000 + (b * 100 + c * 10 + d);
    assert n / 1000 == a;
    assert n / 10 == a * 100 + b * 10 + c;
    assert n / 10 % 10 == c;
    assert n % 10 == d;
  }

  /** Reading back a formatted date gives the date. */
  lemma ParseFormatDate(d: Date)
    requires ValidDate(d)
    ensures ParseDate(FormatDate(d)) == Some(d)
  {
    FourDigitsOf(d.year);
    TwoDigitsOf(d.month);
    TwoDigitsOf(d.day);
  }
}
