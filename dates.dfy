/** The two date formats the mappers use, `%d/%m/%Y` and `%Y-%m-%d`, as Python's `datetime.strptime`
    reads them and `strftime` writes them: proleptic Gregorian dates of years 1 to 9999. */
module Dates {
  import opened Wrappers
  import opened Text

  datatype Date = Date(year: int, month: int, day: int)

  const DmyFormat := "%d/%m/%Y"
  const IsoFormat := "%Y-%m-%d"

  predicate IsLeapYear(y: int) { y % 4 == 0 && (y % 100 != 0 || y % 400 == 0) }

  function DaysInMonth(y: int, m: int): (n: int)
    requires 1 <= m <= 12
    ensures 28 <= n <= 31
  {
    if m == 2 then (if IsLeapYear(y) then 29 else 28)
    else if m == 4 || m == 6 || m == 9 || m == 11 then 30
    else 31
  }

  /** A date `datetime` can represent: year 1 to 9999, month 1 to 12, day within the month. */
  predicate ValidDate(d: Date) {
    1 <= d.year <= 9999 && 1 <= d.month <= 12 && 1 <= d.day <= DaysInMonth(d.year, d.month)
  }

  /** A `%d` field: two digits 01 to 31, one digit 1 to 9, or a space and one digit 1 to 9. */
  function DayField(t: string): Option<int> {
    if |t| == 1 && IsDigit(t[0]) && t[0] != '0' then Some(DigitValue(t[0]))
    else if |t| == 2 && t[0] == ' ' && IsDigit(t[1]) && t[1] != '0' then Some(DigitValue(t[1]))
    else if |t| == 2 && AllDigits(t) && 1 <= Value(t) <= 31 then Some(Value(t))
    else None
  }

  /** A `%m` field: two digits 01 to 12, or one digit 1 to 9. */
  function MonthField(t: string): Option<int> {
    if |t| == 1 && IsDigit(t[0]) && t[0] != '0' then Some(DigitValue(t[0]))
    else if |t| == 2 && AllDigits(t) && 1 <= Value(t) <= 12 then Some(Value(t))
    else None
  }

  /** A `%Y` field: exactly four digits. */
  function YearField(t: string): Option<int> {
    if |t| == 4 && AllDigits(t) then Some(Value(t)) else None
  }

  /** The date named by three fields, if each is well formed and together they name a real date. */
  function FromFields(dayText: string, monthText: string, yearText: string): (r: Option<Date>)
    ensures r.Some? ==> ValidDate(r.value)
  {
    match (DayField(dayText), MonthField(monthText), YearField(yearText))
    case (Some(d), Some(m), Some(y)) =>
      if ValidDate(Date(y, m, d)) then Some(Date(y, m, d)) else None
    case _ => None
  }

  /** `datetime.strptime(s, "%d/%m/%Y")`; `None` where it raises `ValueError`. The whole string must
      be consumed, so `s` is exactly three '/'-separated fields. */
  function ParseDmy(s: string): (r: Option<Date>)
    ensures r.Some? ==> ValidDate(r.value)
  {
    var p := Split(s, '/');
    if |p| == 3 then FromFields(p[0], p[1], p[2]) else None
  }

  /** `datetime.strptime(s, "%Y-%m-%d")`; `None` where it raises `ValueError`. */
  function ParseIso(s: string): (r: Option<Date>)
    ensures r.Some? ==> ValidDate(r.value)
  {
    var p := Split(s, '-');
    if |p| == 3 then FromFields(p[2], p[1], p[0]) else None
  }

  /** `strftime("%d/%m/%Y")`: every field zero padded. */
  function FormatDmy(d: Date): string
    requires ValidDate(d)
  {
    Pad(d.day, 2) + "/" + Pad(d.month, 2) + "/" + Pad(d.year, 4)
  }

  /** `strftime("%Y-%m-%d")`, the calendar date in the extended format of ISO 8601. */
  function FormatIso(d: Date): string
    requires ValidDate(d)
  {
    Pad(d.year, 4) + "-" + Pad(d.month, 2) + "-" + Pad(d.day, 2)
  }

  /** `DD/MM/YYYY` with every field written out in full digits. */
  predicate IsZeroPaddedDmy(s: string) {
    |s| == 10 && s[2] == '/' && s[5] == '/'
    && AllDigits(s[..2]) && AllDigits(s[3..5]) && AllDigits(s[6..])
  }

  /** `YYYY-MM-DD` with every field written out in full digits. */
  predicate IsZeroPaddedIso(s: string) {
    |s| == 10 && s[4] == '-' && s[7] == '-'
    && AllDigits(s[..4]) && AllDigits(s[5..7]) && AllDigits(s[8..])
  }

  lemma FieldsOfPads(d: Date)
    requires ValidDate(d)
    ensures DayField(Pad(d.day, 2)) == Some(d.day)
    ensures MonthField(Pad(d.month, 2)) == Some(d.month)
    ensures YearField(Pad(d.year, 4)) == Some(d.year)
    ensures FromFields(Pad(d.day, 2), Pad(d.month, 2), Pad(d.year, 4)) == Some(d)
  {
    ValueOfPad(d.day, 2);
    ValueOfPad(d.month, 2);
    ValueOfPad(d.year, 4);
  }

  lemma ThreePieces(a: string, b: string, c: string, sep: char)
    requires sep !in a && sep !in b && sep !in c
    ensures Split(a + [sep] + b + [sep] + c, sep) == [a, b, c]
  {
    var pieces := [a, b, c];
    assert Join(pieces[2..], sep) == c;
    assert Join(pieces[1..], sep) == b + [sep] + c;
    assert Join(pieces, sep) == a + [sep] + b + [sep] + c;
    SplitJoin(pieces, sep);
  }

  /** Writing a date as `DD/MM/YYYY` and reading it back gives the date, and the text is zero padded. */
  lemma ParseFormatDmy(d: Date)
    requires ValidDate(d)
    ensures ParseDmy(FormatDmy(d)) == Some(d)
    ensures IsZeroPaddedDmy(FormatDmy(d))
  {
    var dd, mm, yyyy := Pad(d.day, 2), Pad(d.month, 2), Pad(d.year, 4);
    ThreePieces(dd, mm, yyyy, '/');
    FieldsOfPads(d);
    var s := FormatDmy(d);
    assert s[..2] == dd && s[3..5] == mm && s[6..] == yyyy;
  }

  /** Writing a date as `YYYY-MM-DD` and reading it back gives the date, and the text is zero padded. */
  lemma ParseFormatIso(d: Date)
    requires ValidDate(d)
    ensures ParseIso(FormatIso(d)) == Some(d)
    ensures IsZeroPaddedIso(FormatIso(d))
  {
    var dd, mm, yyyy := Pad(d.day, 2), Pad(d.month, 2), Pad(d.year, 4);
    ThreePieces(yyyy, mm, dd, '-');
    FieldsOfPads(d);
    var s := FormatIso(d);
    assert s[..4] == yyyy && s[5..7] == mm && s[8..] == dd;
  }

  lemma PadOfField(t: string, w: nat, n: int)
    requires |t| == w && AllDigits(t) && n == Value(t)
    ensures n >= 0 && Pad(n, w) == t
  {
    PadOfValue(t);
  }

  /** Reading `DD/MM/YYYY` and writing the date back reproduces the text exactly when the text was zero
      padded: `strptime` accepts "1/2/2021" and " 1/02/2021", `strftime` writes "01/02/2021". */
  lemma FormatParseDmy(s: string, d: Date)
    requires ParseDmy(s) == Some(d)
    ensures FormatDmy(d) == s <==> IsZeroPaddedDmy(s)
  {
    ParseFormatDmy(d);
    if IsZeroPaddedDmy(s) {
      var dd, mm, yyyy := s[..2], s[3..5], s[6..];
      assert s == dd + ['/'] + mm + ['/'] + yyyy;
      ThreePieces(dd, mm, yyyy, '/');
      PadOfField(dd, 2, d.day);
      PadOfField(mm, 2, d.month);
      PadOfField(yyyy, 4, d.year);
    }
  }

  /** The same for `YYYY-MM-DD`. */
  lemma FormatParseIso(s: string, d: Date)
    requires ParseIso(s) == Some(d)
    ensures FormatIso(d) == s <==> IsZeroPaddedIso(s)
  {
    ParseFormatIso(d);
    if IsZeroPaddedIso(s) {
      var yyyy, mm, dd := s[..4], s[5..7], s[8..];
      assert s == yyyy + ['-'] + mm + ['-'] + dd;
      ThreePieces(yyyy, mm, dd, '-');
      PadOfField(dd, 2, d.day);
      PadOfField(mm, 2, d.month);
      PadOfField(yyyy, 4, d.year);
    }
  }
  /** A field 1 to 99 written without zero padding: one digit below 10. */
  function ShortField(n: nat): string
    requires 1 <= n <= 99
  {
    if n < 10 then [DigitChar(n)] else Pad(n, 2)
  }

  /** A day 1 to 31 written with a leading space instead of a zero below 10. */
  function SpacedDay(n: nat): string
    requires 1 <= n <= 31
  {
    if n < 10 then [' ', DigitChar(n)] else Pad(n, 2)
  }

  lemma ShortFieldsRead(d: Date)
    requires ValidDate(d)
    ensures DayField(ShortField(d.day)) == Some(d.day)
    ensures DayField(SpacedDay(d.day)) == Some(d.day)
    ensures MonthField(ShortField(d.month)) == Some(d.month)
    ensures '/' !in ShortField(d.day) && '/' !in SpacedDay(d.day) && '/' !in ShortField(d.month)
    ensures '-' !in ShortField(d.day) && '-' !in SpacedDay(d.day) && '-' !in ShortField(d.month)
  {
    FieldsOfPads(d);
  }

  /** `strptime` reads every date from unpadded day and month fields, and from a day padded with a
      space, as well as from the zero-padded form `strftime` writes. */
  lemma ParseUnpaddedFields(d: Date)
    requires ValidDate(d)
    ensures ParseDmy(ShortField(d.day) + "/" + ShortField(d.month) + "/" + Pad(d.year, 4)) == Some(d)
    ensures ParseDmy(SpacedDay(d.day) + "/" + Pad(d.month, 2) + "/" + Pad(d.year, 4)) == Some(d)
    ensures ParseIso(Pad(d.year, 4) + "-" + ShortField(d.month) + "-" + ShortField(d.day)) == Some(d)
    ensures ParseIso(Pad(d.year, 4) + "-" + Pad(d.month, 2) + "-" + SpacedDay(d.day)) == Some(d)
  {
    ShortFieldsRead(d);
    FieldsOfPads(d);
    var dd, sd, sm, mm, yyyy := ShortField(d.day), SpacedDay(d.day), ShortField(d.month), Pad(d.month, 2), Pad(d.year, 4);
    ThreePieces(dd, sm, yyyy, '/');
    ThreePieces(sd, mm, yyyy, '/');
    ThreePieces(yyyy, sm, dd, '-');
    ThreePieces(yyyy, mm, sd, '-');
  }
}

module DateExamples {
  import opened Wrappers
  import opened Text
  import opened Dates

  lemma ValueOfTwo(t: string)
    requires |t| == 2 && AllDigits(t)
    ensures Value(t) == 10 * DigitValue(t[0]) + DigitValue(t[1])
  {
    var u := t[..1];
    assert u[..0] == [] && u[0] == t[0] && t[..|t| - 1] == u;
    assert Value(u) == 10 * Value(u[..0]) + DigitValue(u[0]);
    assert Value(u) == DigitValue(t[0]);
  }

  lemma ValueOfFour(t: string)
    requires |t| == 4 && AllDigits(t)
    ensures Value(t) == 1000 * DigitValue(t[0]) + 100 * DigitValue(t[1]) + 10 * DigitValue(t[2]) + DigitValue(t[3])
  {
    var u, v := t[..3], t[..2];
    assert u[..2] == v && u[2] == t[2] && t[..|t| - 1] == u && u[..|u| - 1] == v;
    ValueOfTwo(v);
    assert v[0] == t[0] && v[1] == t[1];
    assert Value(u) == 10 * Value(v) + DigitValue(t[2]);
  }

  /** Reading `dd/mm/yyyy` is reading its three fields. */
  lemma DmyFields(dd: string, mm: string, yyyy: string, s: string)
    requires '/' !in dd && '/' !in mm && '/' !in yyyy
    requires s == dd + ['/'] + mm + ['/'] + yyyy
    ensures ParseDmy(s) == FromFields(dd, mm, yyyy)
  {
    ThreePieces(dd, mm, yyyy, '/');
  }

  /** The fields of the examples below, read one by one. */
  lemma FieldExamples()
    ensures DayField("31") == Some(31) && DayField("29") == Some(29) && DayField("00") == None
    ensures DayField("01") == Some(1) && DayField("1") == Some(1) && DayField(" 1") == Some(1)
    ensures MonthField("02") == Some(2) && MonthField("2") == Some(2) && MonthField("01") == Some(1)
    ensures YearField("2021") == Some(2021) && YearField("2000") == Some(2000)
    ensures YearField("1900") == Some(1900) && YearField("0000") == Some(0)
  {
    ValueOfTwo("31");
    ValueOfTwo("29");
    ValueOfTwo("00");
    ValueOfTwo("01");
    ValueOfTwo("02");
    ValueOfFour("2021");
    ValueOfFour("2000");
    ValueOfFour("1900");
    ValueOfFour("0000");
  }

  /** Texts `strptime` refuses: a day past the end of its month, 29 February of a year divisible by
      100 and not by 400, and year 0000, below the smallest year `datetime` represents. */
  lemma RejectedDates(s: string)
    requires s == "31/02/2021" || s == "29/02/1900" || s == "01/01/0000"
    ensures ParseDmy(s) == None
  {
    FieldExamples();
    if s == "31/02/2021" {
      assert s == "31" + ['/'] + "02" + ['/'] + "2021";
      DmyFields("31", "02", "2021", s);
    } else if s == "29/02/1900" {
      assert s == "29" + ['/'] + "02" + ['/'] + "1900";
      DmyFields("29", "02", "1900", s);
    } else {
      assert s == "01" + ['/'] + "01" + ['/'] + "0000";
      DmyFields("01", "01", "0000", s);
    }
  }

  /** Texts `strptime` accepts: 29 February of a year divisible by 400, one-digit day and month, and
      a day written as a space and one digit. */
  lemma AcceptedDates(s: string, d: Date)
    requires
      || (s == "29/02/2000" && d == Date(2000, 2, 29))
      || (s == "1/2/2021" && d == Date(2021, 2, 1))
      || (s == " 1/02/2021" && d == Date(2021, 2, 1))
    ensures ParseDmy(s) == Some(d)
  {
    FieldExamples();
    if s == "29/02/2000" {
      assert s == "29" + ['/'] + "02" + ['/'] + "2000";
      DmyFields("29", "02", "2000", s);
    } else if s == "1/2/2021" {
      assert s == "1" + ['/'] + "2" + ['/'] + "2021";
      DmyFields("1", "2", "2021", s);
    } else {
      assert s == " 1" + ['/'] + "02" + ['/'] + "2021";
      DmyFields(" 1", "02", "2021", s);
    }
  }

  /** A date is written back zero padded, whatever field widths it was read from. */
  lemma WritesZeroPadded(d: Date)
    requires d == Date(2021, 2, 1)
    ensures FormatDmy(d) == "01/02/2021"
  {
    assert Pad(1, 2) == "01" && Pad(2, 2) == "02";
    assert Pad(2021, 4) == "2021";
  }
}
