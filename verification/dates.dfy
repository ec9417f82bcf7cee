/**
 * The due-date text format "%d-%m-%Y %H:%M:%S" the handlers parse and print,
 * restricted to its zero-padded form: "DD-MM-YYYY HH:MM:SS", nineteen characters.
 */
module Dates {
  import opened Optional

  /** A naive (timezone-free) date and time, to the second, as Python's datetime holds it. */
  datatype DateTime = DateTime(year: int, month: int, day: int, hour: int, minute: int, second: int)

  predicate IsLeapYear(year: int) {
    year % 4 == 0 && (year % 100 != 0 || year % 400 == 0)
  }

  function DaysInMonth(year: int, month: int): (n: int)
    requires 1 <= month <= 12
    ensures 28 <= n <= 31
    ensures n == 29 <==> month == 2 && IsLeapYear(year)
  {
    if month == 2 then (if IsLeapYear(year) then 29 else 28)
    else if month == 4 || month == 6 || month == 9 || month == 11 then 30
    else 31
  }

  /** The values Python's datetime accepts: years 1 to 9999, real calendar days, no leap seconds. */
  predicate IsValid(d: DateTime) {
    && 1 <= d.year <= 9999
    && 1 <= d.month <= 12
    && 1 <= d.day <= DaysInMonth(d.year, d.month)
    && 0 <= d.hour < 24
    && 0 <= d.minute < 60
    && 0 <= d.second < 60
  }

  /** A datetime value that exists: Python cannot construct any other. */
  type Date = d: DateTime | IsValid(d) witness DateTime(1, 1, 1, 0, 0, 0)

  predicate IsDigit(c: char) {
    '0' <= c <= '9'
  }

  function DigitChar(d: nat): (c: char)
    requires d < 10
    ensures IsDigit(c)
  {
    ('0' as int + d) as char
  }

  function DigitValue(c: char): (d: nat)
    requires IsDigit(c)
    ensures d < 10
  {
    c as int - '0' as int
  }

  /** The value of the two digits at `s[i..i+2]`. */
  function Value2(s: string, i: nat): (n: nat)
    requires i + 2 <= |s| && IsDigit(s[i]) && IsDigit(s[i + 1])
    ensures n < 100
  {
    10 * DigitValue(s[i]) + DigitValue(s[i + 1])
  }

  /** The value of the four digits at `s[i..i+4]`. */
  function Value4(s: string, i: nat): (n: nat)
    requires i + 4 <= |s| && IsDigit(s[i]) && IsDigit(s[i + 1]) && IsDigit(s[i + 2]) && IsDigit(s[i + 3])
    ensures n < 10000
  {
    1000 * DigitValue(s[i]) + 100 * DigitValue(s[i + 1]) + 10 * DigitValue(s[i + 2]) + DigitValue(s[i + 3])
  }

  /**
   * strftime with "%d-%m<sep>%Y %H:%M:%S": every field zero-padded (the year to
   * four digits), `sep` between month and year.
   */
  function FormatWith(d: Date, monthYearSep: char): (s: string)
    ensures |s| == 19
  {
    var y := d.year;
    [ DigitChar(d.day / 10), DigitChar(d.day % 10), '-',
      DigitChar(d.month / 10), DigitChar(d.month % 10), monthYearSep,
      DigitChar(y / 1000), DigitChar(y / 100 % 10), DigitChar(y / 10 % 10), DigitChar(y % 10), ' ',
      DigitChar(d.hour / 10), DigitChar(d.hour % 10), ':',
      DigitChar(d.minute / 10), DigitChar(d.minute % 10), ':',
      DigitChar(d.second / 10), DigitChar(d.second % 10) ]
  }


  /** The shape "DD-MM-YYYY HH:MM:SS": digits and separators in place, values not yet checked. */
  predicate IsPaddedShape(s: string) {
    && |s| == 19
    && s[2] == '-' && s[5] == '-' && s[10] == ' ' && s[13] == ':' && s[16] == ':'
    && IsDigit(s[0]) && IsDigit(s[1]) && IsDigit(s[3]) && IsDigit(s[4])
    && IsDigit(s[6]) && IsDigit(s[7]) && IsDigit(s[8]) && IsDigit(s[9])
    && IsDigit(s[11]) && IsDigit(s[12]) && IsDigit(s[14]) && IsDigit(s[15])
    && IsDigit(s[17]) && IsDigit(s[18])
  }

  /**
   * strptime with "%d-%m-%Y %H:%M:%S" on the zero-padded form: None where Python
   * raises ValueError (wrong shape, or a field out of range for the calendar).
   */
  function Parse(s: string): (r: Option<Date>)
    ensures r.Some? ==> IsPaddedShape(s)
  {
    if IsPaddedShape(s) then
      var d := DateTime(Value4(s, 6), Value2(s, 3), Value2(s, 0), Value2(s, 11), Value2(s, 14), Value2(s, 17));
      if IsValid(d) then Some(d) else None
    else None
  }

  /** The four decimal digits of a year below 10000 put back together give the year. */
  lemma YearDigits(y: nat)
    requires y < 10000
    ensures 1000 * (y / 1000) + 100 * (y / 100 % 10) + 10 * (y / 10 % 10) + y % 10 == y
  {
    assert y == 10 * (y / 10) + y % 10;
    assert y / 10 == 10 * (y / 100) + y / 10 % 10;
    assert y / 100 == 10 * (y / 1000) + y / 100 % 10;
  }

  /** Printing a two-digit field's value gives back its two digits. */
  lemma PrintValue2(s: string, i: nat)
    requires i + 2 <= |s| && IsDigit(s[i]) && IsDigit(s[i + 1])
    ensures DigitChar(Value2(s, i) / 10) == s[i]
    ensures DigitChar(Value2(s, i) % 10) == s[i + 1]
  {
  }

  /** Printing a four-digit field's value gives back its four digits. */
  lemma PrintValue4(s: string, i: nat)
    requires i + 4 <= |s| && IsDigit(s[i]) && IsDigit(s[i + 1]) && IsDigit(s[i + 2]) && IsDigit(s[i + 3])
    ensures DigitChar(Value4(s, i) / 1000) == s[i]
    ensures DigitChar(Value4(s, i) / 100 % 10) == s[i + 1]
    ensures DigitChar(Value4(s, i) / 10 % 10) == s[i + 2]
    ensures DigitChar(Value4(s, i) % 10) == s[i + 3]
  {
    var a, b, c, e := DigitValue(s[i]), DigitValue(s[i + 1]), DigitValue(s[i + 2]), DigitValue(s[i + 3]);
    var y := 1000 * a + 100 * b + 10 * c + e;
    assert y % 10 == e;
    assert y / 10 == 100 * a + 10 * b + c;
    assert y / 10 % 10 == c;
    assert y / 100 == 10 * a + b;
    assert y / 100 % 10 == b;
    assert y / 1000 == a;
  }

  /** Reading back what the hyphen formatter prints gives the same date and time. */
  lemma ParseFormat(d: Date)
    ensures Parse(FormatWith(d, '-')) == Some(d)
  {
    var s := FormatWith(d, '-');
    assert IsPaddedShape(s);
    YearDigits(d.year);
    assert Value4(s, 6) == d.year;
  }

  /** The padded form is canonical: a string that parses is exactly what the formatter prints for its value. */
  lemma FormatParse(s: string)
    requires Parse(s).Some?
    ensures Format(Parse(s).value) == s
  {
    var d := Parse(s).value;
    assert d.day == Value2(s, 0) && d.month == Value2(s, 3) && d.year == Value4(s, 6);
    assert d.hour == Value2(s, 11) && d.minute == Value2(s, 14) && d.second == Value2(s, 17);
    PrintValue2(s, 0);
    PrintValue2(s, 3);
    PrintValue4(s, 6);
    PrintValue2(s, 11);
    PrintValue2(s, 14);
    PrintValue2(s, 17);
    var f := FormatWith(d, '-');
    assert f == [s[0], s[1], '-', s[3], s[4], '-', s[6], s[7], s[8], s[9], ' ',
                 s[11], s[12], ':', s[14], s[15], ':', s[17], s[18]];
    assert s == f;
  }

  /** The format the handlers read, and the one get-by-id and the filtered listings print: "%d-%m-%Y %H:%M:%S". Reading it back gives the same date and time. */
  function Format(d: Date): (s: string)
    ensures |s| == 19
    ensures Parse(s) == Some(d)
  {
    ParseFormat(d);
    FormatWith(d, '-')
  }

  /** The format the list-all handler prints: "%d-%m_%Y %H:%M:%S". Its underscore before the year means the input format never reads it back. */
  function FormatListAll(d: Date): (s: string)
    ensures |s| == 19
    ensures s[5] == '_'
    ensures Parse(s) == None
  {
    FormatWith(d, '_')
  }
}
