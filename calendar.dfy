/**
 * The part of Python's `datetime` that `format_date` relies on: reading a date with
 * `datetime.strptime(s, '%d-%m-%Y')`, the proleptic Gregorian validity check of
 * `datetime.date`, and writing it back with `strftime('%Y-%m-%d')`.
 */
module Calendar {
  import opened Wrappers
  import opened Text

  /** A calendar date as `datetime.date` holds it. */
  datatype Date = Date(year: int, month: int, day: int)

  predicate IsLeapYear(y: int)
  {
    y % 4 == 0 && (y % 100 != 0 || y % 400 == 0)
  }

  function DaysInMonth(y: int, m: int): (r: int)
    requires 1 <= m <= 12
    ensures 28 <= r <= 31
  {
    if m == 2 then (if IsLeapYear(y) then 29 else 28)
    else if m == 4 || m == 6 || m == 9 || m == 11 then 30
    else 31
  }

  /** The dates `datetime.date` accepts: years 1 to 9999 and a day that exists in its month. */
  predicate ValidDate(d: Date)
  {
    1 <= d.year <= 9999 && 1 <= d.month <= 12 && 1 <= d.day <= DaysInMonth(d.year, d.month)
  }

  // ---------------------------------------------------------------------------
  // Reading: `strptime` with the format `%d-%m-%Y`

  predicate IsNonZeroDigit(c: char)
  {
    '1' <= c <= '9'
  }

  /** The texts the `%d` directive matches: `3[01]`, `[12]\d`, `0[1-9]`, `[1-9]` or a space and `[1-9]`. */
  predicate DayToken(t: string)
  {
    (|t| == 1 && IsNonZeroDigit(t[0])) ||
    (|t| == 2 &&
      ((t[0] == '3' && (t[1] == '0' || t[1] == '1')) ||
       ((t[0] == '1' || t[0] == '2') && IsDigit(t[1])) ||
       (t[0] == '0' && IsNonZeroDigit(t[1])) ||
       (t[0] == ' ' && IsNonZeroDigit(t[1]))))
  }

  /** The day a `%d` token denotes. */
  function DayValue(t: string): (r: int)
    requires DayToken(t)
    ensures 1 <= r <= 31
  {
    if t[0] == ' ' then DigitValue(t[1])
    else if |t| == 1 then DigitValue(t[0])
    else DigitValue(t[0]) * 10 + DigitValue(t[1])
  }

  /** The texts the `%m` directive matches: `1[0-2]`, `0[1-9]` or `[1-9]`. */
  predicate MonthToken(t: string)
  {
    (|t| == 1 && IsNonZeroDigit(t[0])) ||
    (|t| == 2 && ((t[0] == '1' && '0' <= t[1] <= '2') || (t[0] == '0' && IsNonZeroDigit(t[1]))))
  }

  /** The month a `%m` token denotes. */
  function MonthValue(t: string): (r: int)
    requires MonthToken(t)
    ensures 1 <= r <= 12
  {
    if |t| == 1 then DigitValue(t[0]) else DigitValue(t[0]) * 10 + DigitValue(t[1])
  }

  /** The texts the `%Y` directive matches: exactly four digits. */
  predicate YearToken(t: string)
  {
    |t| == 4 && AllDigits(t)
  }

  /** The position of the first `c` in `s`, or `|s|` when there is none. */
  function IndexOf(s: string, c: char): (r: nat)
    ensures r <= |s|
    ensures forall k :: 0 <= k < r ==> s[k] != c
    ensures r < |s| ==> s[r] == c
    decreases |s|
  {
    if s == [] || s[0] == c then 0 else 1 + IndexOf(s[1..], c)
  }

  /** A first field longer than two characters is no day, so the text does not parse. */
  lemma LongFirstFieldRejected(s: string)
    requires IndexOf(s, '-') > 2
    ensures ParseDayMonthYear(s).None?
  {
    var i := IndexOf(s, '-');
    assert |s[..i]| == i;
  }

  /**
   * `datetime.strptime(s, '%d-%m-%Y')`, with `None` for its `ValueError`. No token can
   * hold a dash, so the day is the text before the first dash, the month the text up
   * to the second, and the year the rest, which must be exactly four digits; the date
   * must then exist.
   */
  function ParseDayMonthYear(s: string): (r: Option<Date>)
    ensures r.Some? ==> ValidDate(r.value)
  {
    var i := IndexOf(s, '-');
    if i == |s| then None
    else
      var rest := s[i + 1..];
      var j := IndexOf(rest, '-');
      if j == |rest| then None
      else
        var dayText, monthText, yearText := s[..i], rest[..j], rest[j + 1..];
        if !(DayToken(dayText) && MonthToken(monthText) && YearToken(yearText)) then None
        else
          var d := Date(DecimalValue(yearText), MonthValue(monthText), DayValue(dayText));
          if ValidDate(d) then Some(d) else None
  }

  // ---------------------------------------------------------------------------
  // Writing: zero-padded fields

  /** A number below 100 as two digits (`%d`, `%m` in `strftime`). */
  function Pad2(n: int): string
    requires 0 <= n < 100
  {
    [DigitChar(n / 10), DigitChar(n % 10)]
  }

  /** A number below 10000 as four digits (`%Y` in `strftime`). */
  function Pad4(n: int): string
    requires 0 <= n < 10000
  {
    Pad2(n / 100) + Pad2(n % 100)
  }

  lemma Pad2Reads(n: int)
    requires 0 <= n < 100
    ensures |Pad2(n)| == 2 && AllDigits(Pad2(n)) && DecimalValue(Pad2(n)) == n
  {
    var p := Pad2(n);
    assert p[..1][..0] == [];
    assert DecimalValue(p[..1]) == DigitValue(p[0]) == n / 10;
    assert DigitValue(p[1]) == n % 10;
  }

  lemma Pad4Reads(n: int)
    requires 0 <= n < 10000
    ensures |Pad4(n)| == 4 && AllDigits(Pad4(n)) && DecimalValue(Pad4(n)) == n
  {
    var p := Pad4(n);
    var a, b := n / 100, n % 100;
    Pad2Reads(a);
    Pad2Reads(b);
    assert p[..3] == Pad2(a) + [p[2]];
    assert p[..3][..2] == Pad2(a);
    assert DecimalValue(p) == DecimalValue(Pad2(a)) * 100 + DigitValue(p[2]) * 10 + DigitValue(p[3]);
  }

  /** The field ranges the zero-padded `dd-mm-yyyy` text can express. */
  predicate InFieldRanges(d: Date)
  {
    0 <= d.year <= 9999 && 1 <= d.month <= 12 && 1 <= d.day <= 31
  }

  /** The zero-padded `dd-mm-yyyy` text of a date. */
  function DayMonthYearText(d: Date): string
    requires InFieldRanges(d)
  {
    Pad2(d.day) + "-" + Pad2(d.month) + "-" + Pad4(d.year)
  }

  /** `date.strftime('%Y-%m-%d')`. */
  function IsoText(d: Date): string
    requires ValidDate(d)
  {
    Pad4(d.year) + "-" + Pad2(d.month) + "-" + Pad2(d.day)
  }

  // ---------------------------------------------------------------------------
  // Properties

  lemma PaddedDayIsToken(n: int)
    requires 1 <= n <= 31
    ensures DayToken(Pad2(n)) && DayValue(Pad2(n)) == n
  {
    Pad2Reads(n);
    var p := Pad2(n);
    assert p[0] == DigitChar(n / 10) && p[1] == DigitChar(n % 10);
  }

  lemma PaddedMonthIsToken(n: int)
    requires 1 <= n <= 12
    ensures MonthToken(Pad2(n)) && MonthValue(Pad2(n)) == n
  {
    Pad2Reads(n);
    var p := Pad2(n);
    assert p[0] == DigitChar(n / 10) && p[1] == DigitChar(n % 10);
  }

  /** How `ParseDayMonthYear` splits a text made of three dash-free fields. */
  lemma SplitThreeFields(a: string, b: string, c: string)
    requires |a| == 2 && |b| == 2 && AllDigits(a) && AllDigits(b)
    ensures IndexOf(a + "-" + b + "-" + c, '-') == 2
    ensures var rest := (a + "-" + b + "-" + c)[3..];
            rest == b + "-" + c && IndexOf(rest, '-') == 2 &&
            (a + "-" + b + "-" + c)[..2] == a && rest[..2] == b && rest[3..] == c
  {
    var s := a + "-" + b + "-" + c;
    assert s[0] == a[0] && s[1] == a[1] && s[2] == '-';
    var rest := s[3..];
    assert rest == b + "-" + c;
    assert rest[0] == b[0] && rest[1] == b[1] && rest[2] == '-';
  }

  /**
   * Reading the zero-padded text of any day, month and year in range gives back that
   * date when it exists, and fails when it does not (a 31st of February, year 0).
   */
  lemma ParsePaddedText(d: Date)
    requires InFieldRanges(d)
    ensures ParseDayMonthYear(DayMonthYearText(d)) == if ValidDate(d) then Some(d) else None
  {
    Pad2Reads(d.day);
    Pad2Reads(d.month);
    Pad4Reads(d.year);
    SplitThreeFields(Pad2(d.day), Pad2(d.month), Pad4(d.year));
    PaddedDayIsToken(d.day);
    PaddedMonthIsToken(d.month);
  }

  /** A two-character day or month token without a space is the zero-padded text of its value. */
  lemma TwoDigitTokenIsPadded(t: string, v: int)
    requires |t| == 2 && IsDigit(t[0]) && IsDigit(t[1])
    requires v == DigitValue(t[0]) * 10 + DigitValue(t[1])
    ensures 0 <= v < 100 && Pad2(v) == t
  {
    assert v / 10 == DigitValue(t[0]) && v % 10 == DigitValue(t[1]);
  }

  /**
   * Conversely, a ten-character text that reads as a date and does not start with a
   * space is exactly the zero-padded text of that date.
   */
  lemma ParsedTenCharactersArePadded(s: string)
    requires |s| == 10 && s[0] != ' '
    requires ParseDayMonthYear(s).Some?
    ensures DayMonthYearText(ParseDayMonthYear(s).value) == s
  {
    var d := ParseDayMonthYear(s).value;
    var i := IndexOf(s, '-');
    var rest := s[i + 1..];
    var j := IndexOf(rest, '-');
    var dayText, monthText, yearText := s[..i], rest[..j], rest[j + 1..];
    assert i == 2 && j == 2;
    TwoDigitTokenIsPadded(dayText, d.day);
    TwoDigitTokenIsPadded(monthText, d.month);
    Pad4Reads(d.year);
    assert Pad4(d.year) == yearText by {
      YearTextIsPadded(yearText);
    }
    assert s == dayText + "-" + monthText + "-" + yearText;
  }

  /** Four digits are the zero-padded text of their own value. */
  lemma YearTextIsPadded(t: string)
    requires YearToken(t)
    ensures DecimalValue(t) < 10000 && Pad4(DecimalValue(t)) == t
  {
    var n := DecimalValue(t);
    assert t[..3][..2][..1][..0] == [];
    assert DecimalValue(t[..1]) == DigitValue(t[0]);
    assert DecimalValue(t[..2]) == DigitValue(t[0]) * 10 + DigitValue(t[1]) by {
      assert t[..2][..1] == t[..1];
    }
    assert DecimalValue(t[..3]) == DecimalValue(t[..2]) * 10 + DigitValue(t[2]) by {
      assert t[..3][..2] == t[..2];
    }
    assert n == ((DigitValue(t[0]) * 10 + DigitValue(t[1])) * 10 + DigitValue(t[2])) * 10 + DigitValue(t[3]);
    TwoDigitTokenIsPadded(t[..2], n / 100);
    TwoDigitTokenIsPadded(t[2..], n % 100);
    assert t == t[..2] + t[2..];
  }

  /** The `yyyy-mm-dd` text holds the same year, month and day, in that order. */
  lemma IsoTextFields(d: Date)
    requires ValidDate(d)
    ensures |IsoText(d)| == 10 && IsoText(d)[4] == '-' && IsoText(d)[7] == '-'
    ensures AllDigits(IsoText(d)[..4]) && DecimalValue(IsoText(d)[..4]) == d.year
    ensures AllDigits(IsoText(d)[5..7]) && DecimalValue(IsoText(d)[5..7]) == d.month
    ensures AllDigits(IsoText(d)[8..]) && DecimalValue(IsoText(d)[8..]) == d.day
  {
    var r := IsoText(d);
    Pad4Reads(d.year);
    Pad2Reads(d.month);
    Pad2Reads(d.day);
    assert r[..4] == Pad4(d.year);
    assert r[5..7] == Pad2(d.month);
    assert r[8..] == Pad2(d.day);
  }
}
