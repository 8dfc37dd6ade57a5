/** The text form of dates used by the ETA calculator: Python's
    `datetime.strptime(s, '%Y-%m-%d')` and `strftime('%Y-%m-%d')`. */
module DateText {
  import opened Wrappers
  import opened CivilDate

  predicate IsDigit(c: char) {
    '0' <= c <= '9'
  }

  predicate IsNonZeroDigit(c: char) {
    '1' <= c <= '9'
  }

  function DigitValue(c: char): (n: int)
    requires IsDigit(c)
    ensures 0 <= n <= 9
  {
    c as int - '0' as int
  }

  function DigitChar(n: int): (c: char)
    requires 0 <= n <= 9
    ensures IsDigit(c) && DigitValue(c) == n
  {
    ('0' as int + n) as char
  }

  /** The canonical form `DDDD-DD-DD`: ten characters, digits except the two dashes. */
  predicate IsCanonical(s: string) {
    |s| == 10 && s[4] == '-' && s[7] == '-'
    && forall i :: 0 <= i < 10 && i != 4 && i != 7 ==> IsDigit(s[i])
  }

  /** `%Y`: exactly four digits. */
  function YearField(s: string): int
    requires |s| >= 4 && IsDigit(s[0]) && IsDigit(s[1]) && IsDigit(s[2]) && IsDigit(s[3])
  {
    TwoDigits(s[0], s[1]) * 100 + TwoDigits(s[2], s[3])
  }

  function TwoDigits(a: char, b: char): (n: int)
    requires IsDigit(a) && IsDigit(b)
    ensures 0 <= n <= 99
  {
    DigitValue(a) * 10 + DigitValue(b)
  }

  /** `%m` followed by the literal `-`. The pattern `1[0-2]|0[1-9]|[1-9]` takes
      two digits or one; since `-` must follow, at most one alternative fits.
      Gives the month and the text after the dash. */
  function MonthField(s: string): (r: Option<(int, string)>)
    ensures r.Some? ==> 1 <= r.value.0 <= 12 && |r.value.1| < |s|
    ensures r.Some? ==>
      (|s| >= 2 && s[1] == '-' && IsDigit(s[0]) && r.value == (DigitValue(s[0]), s[2..]))
      || (|s| >= 3 && s[2] == '-' && IsDigit(s[0]) && IsDigit(s[1])
          && r.value == (TwoDigits(s[0], s[1]), s[3..]))
  {
    if |s| >= 3 && s[2] == '-'
       && ((s[0] == '1' && '0' <= s[1] <= '2') || (s[0] == '0' && IsNonZeroDigit(s[1])))
    then Some((TwoDigits(s[0], s[1]), s[3..]))
    else if |s| >= 2 && s[1] == '-' && IsNonZeroDigit(s[0])
    then Some((DigitValue(s[0]), s[2..]))
    else None
  }

  /** `%d` at the end of the string. The pattern `3[01]|[12]\d|0[1-9]|[1-9]| [1-9]`
      must match the whole remainder, or strptime reports unconverted data. */
  function DayField(t: string): (r: Option<int>)
    ensures r.Some? ==> 1 <= r.value <= 31
    ensures r.Some? ==> 1 <= |t| <= 2
    ensures r.Some? && |t| == 1 ==> IsDigit(t[0]) && r.value == DigitValue(t[0])
    ensures r.Some? && |t| == 2 ==>
      (t[0] == ' ' && IsDigit(t[1]) && r.value == DigitValue(t[1]))
      || (IsDigit(t[0]) && IsDigit(t[1]) && r.value == TwoDigits(t[0], t[1]))
  {
    if |t| == 2
       && ((t[0] == '3' && (t[1] == '0' || t[1] == '1'))
           || ((t[0] == '1' || t[0] == '2') && IsDigit(t[1]))
           || (t[0] == '0' && IsNonZeroDigit(t[1])))
    then Some(TwoDigits(t[0], t[1]))
    else if |t| == 2 && t[0] == ' ' && IsNonZeroDigit(t[1])
    then Some(DigitValue(t[1]))
    else if |t| == 1 && IsNonZeroDigit(t[0])
    then Some(DigitValue(t[0]))
    else None
  }

  /** `datetime.strptime(s, '%Y-%m-%d')`: `None` where Python raises `ValueError`,
      either because the text does not match the format or because the fields
      name no calendar date (year 0, month 13, February 30 in a common year). */
  function Parse(s: string): (r: Option<Date>)
    ensures r.Some? ==> InRange(r.value)
  {
    if |s| < 5 || !(IsDigit(s[0]) && IsDigit(s[1]) && IsDigit(s[2]) && IsDigit(s[3])) || s[4] != '-'
    then None
    else
      match MonthField(s[5..])
      case None => None
      case Some((month, rest)) =>
        match DayField(rest)
        case None => None
        case Some(day) =>
          var d := Date(YearField(s), month, day);
          if InRange(d) then Some(d) else None
  }

  function Pad2(n: int): (s: string)
    requires 0 <= n <= 99
    ensures |s| == 2 && IsDigit(s[0]) && IsDigit(s[1])
    ensures TwoDigits(s[0], s[1]) == n
  {
    [DigitChar(n / 10), DigitChar(n % 10)]
  }

  function Pad4(n: int): (s: string)
    requires 0 <= n <= 9999
    ensures |s| == 4 && IsDigit(s[0]) && IsDigit(s[1]) && IsDigit(s[2]) && IsDigit(s[3])
    ensures YearField(s) == n
  {
    Pad2(n / 100) + Pad2(n % 100)
  }

  /** `strftime('%Y-%m-%d')`: four-digit year, two-digit month and day. */
  function Format(d: Date): (s: string)
    requires InRange(d)
    ensures IsCanonical(s)
  {
    Pad4(d.year) + "-" + Pad2(d.month) + "-" + Pad2(d.day)
  }

  /** Formatting and then parsing gives back the date. */
  lemma ParseFormat(d: Date)
    requires InRange(d)
    ensures Parse(Format(d)) == Some(d)
  {
    var s := Format(d);
    var y := Pad4(d.year);
    assert s == y + ("-" + (Pad2(d.month) + "-" + Pad2(d.day)));
    assert s[5..] == Pad2(d.month) + "-" + Pad2(d.day);
    assert s[0] == y[0] && s[1] == y[1] && s[2] == y[2] && s[3] == y[3];
    assert YearField(s) == YearField(y);
    MonthFieldPad(d.month, Pad2(d.day));
    DayFieldPad(d.day);
  }

  /** A zero-padded month followed by the dash reads back as that month. */
  lemma MonthFieldPad(m: int, rest: string)
    requires 1 <= m <= 12
    ensures MonthField(Pad2(m) + "-" + rest) == Some((m, rest))
  {
    var t := Pad2(m) + "-" + rest;
    assert t[2] == '-' && t[3..] == rest;
  }

  /** A zero-padded day of the month reads back as that day. */
  lemma DayFieldPad(day: int)
    requires 1 <= day <= 31
    ensures DayField(Pad2(day)) == Some(day)
  {
  }

  /** On a canonical string parsing loses nothing: formatting the parsed date
      gives back the string. */
  lemma FormatParse(s: string)
    requires IsCanonical(s) && Parse(s).Some?
    ensures Format(Parse(s).value) == s
  {
    CanonicalFields(s);
    FormatDigits(s);
  }

  /** Formatting the date a canonical string's digit groups spell gives the string. */
  lemma FormatDigits(s: string)
    requires IsCanonical(s)
    requires InRange(Date(YearField(s), TwoDigits(s[5], s[6]), TwoDigits(s[8], s[9])))
    ensures Format(Date(YearField(s), TwoDigits(s[5], s[6]), TwoDigits(s[8], s[9]))) == s
  {
    YearDigits(s);
    PadDigits2(s[5], s[6]);
    PadDigits2(s[8], s[9]);
    assert s == s[..4] + "-" + [s[5], s[6]] + "-" + [s[8], s[9]];
  }

  /** The year of a canonical string, padded again, is its first four characters. */
  lemma YearDigits(s: string)
    requires IsCanonical(s)
    ensures Pad4(YearField(s)) == s[..4]
  {
    PadDigits4(s[0], s[1], s[2], s[3]);
    assert YearField(s) == YearField([s[0], s[1], s[2], s[3]]);
    assert [s[0], s[1], s[2], s[3]] == s[..4];
  }

  /** The fields of a canonical string are its three digit groups. */
  lemma CanonicalFields(s: string)
    requires IsCanonical(s) && Parse(s).Some?
    ensures IsDigit(s[5]) && IsDigit(s[6]) && IsDigit(s[8]) && IsDigit(s[9])
    ensures Parse(s).value == Date(YearField(s), TwoDigits(s[5], s[6]), TwoDigits(s[8], s[9]))
  {
    assert IsDigit(s[5]) && IsDigit(s[6]) && IsDigit(s[8]) && IsDigit(s[9]);
    assert s[5..][2] == '-' && s[5..][3..] == s[8..];
    assert MonthField(s[5..]) == Some((TwoDigits(s[5], s[6]), s[8..]));
  }

  lemma PadDigits2(a: char, b: char)
    requires IsDigit(a) && IsDigit(b)
    ensures Pad2(TwoDigits(a, b)) == [a, b]
  {
  }

  lemma PadDigits4(a: char, b: char, c: char, e: char)
    requires IsDigit(a) && IsDigit(b) && IsDigit(c) && IsDigit(e)
    ensures Pad4(YearField([a, b, c, e])) == [a, b, c, e]
  {
    var hi, lo := TwoDigits(a, b), TwoDigits(c, e);
    assert YearField([a, b, c, e]) == hi * 100 + lo;
    assert (hi * 100 + lo) / 100 == hi && (hi * 100 + lo) % 100 == lo;
    PadDigits2(a, b);
    PadDigits2(c, e);
  }

  /** strptime accepts zero-padded fields, including a leap day. */
  lemma ParseAcceptsCanonical()
    ensures Parse("2024-03-01") == Some(Date(2024, 3, 1))
    ensures Parse("2024-02-29") == Some(Date(2024, 2, 29))
  {
  }

  /** strptime also accepts unpadded and space-padded fields. */
  lemma ParseAcceptsUnpadded()
    ensures Parse("2024-3-1") == Some(Date(2024, 3, 1))
    ensures Parse("2024-03- 5") == Some(Date(2024, 3, 5))
  {
  }

  /** Text that `%Y-%m-%d` does not describe is rejected. */
  lemma ParseRejectsBadFormat()
    ensures Parse("24-03-01") == None
    ensures Parse("2024/03/01") == None
    ensures Parse("2024-03-011") == None
    ensures Parse("2024-03-01 ") == None
    ensures Parse("") == None
  {
  }

  /** Fields that name no month or day are rejected. */
  lemma ParseRejectsBadFields()
    ensures Parse("2024-13-01") == None
    ensures Parse("0000-01-01") == None
  {
  }

  /** Days past the end of their month are rejected. */
  lemma ParseRejectsBadDay()
    ensures Parse("2023-02-29") == None
    ensures Parse("2023-02-30") == None
    ensures Parse("2024-04-31") == None
  {
  }
}
