/** Gregorian dates and Python's `datetime.strptime(s, "%d-%m-%Y")`, as both
    PreviRed scripts and the SIGO row filter use it. */
module Calendar {
  import opened Wrappers
  import opened Text

  datatype Date = Date(day: int, month: int, year: int)

  /** `datetime.MINYEAR` and `datetime.MAXYEAR`. */
  const MinYear := 1
  const MaxYear := 9999

  predicate IsLeapYear(y: int) {
    y % 4 == 0 && (y % 100 != 0 || y % 400 == 0)
  }

  function DaysInMonth(month: int, year: int): (n: int)
    requires 1 <= month <= 12
    ensures 28 <= n <= 31
    ensures n == 29 <==> month == 2 && IsLeapYear(year)
  {
    if month == 2 then (if IsLeapYear(year) then 29 else 28)
    else if month == 4 || month == 6 || month == 9 || month == 11 then 30
    else 31
  }

  /** What `datetime.date(year, month, day)` accepts. */
  predicate IsValid(d: Date) {
    MinYear <= d.year <= MaxYear && 1 <= d.month <= 12 && 1 <= d.day <= DaysInMonth(d.month, d.year)
  }

  /** `a <= b` on Python dates, which compares (year, month, day) lexicographically. */
  predicate OnOrBefore(a: Date, b: Date) {
    a.year < b.year || (a.year == b.year && (a.month < b.month || (a.month == b.month && a.day <= b.day)))
  }

  lemma OnOrBeforeIsTotalOrder(a: Date, b: Date, c: Date)
    ensures OnOrBefore(a, a)
    ensures OnOrBefore(a, b) || OnOrBefore(b, a)
    ensures OnOrBefore(a, b) && OnOrBefore(b, a) ==> a == b
    ensures OnOrBefore(a, b) && OnOrBefore(b, c) ==> OnOrBefore(a, c)
  {
  }

  // ---------------------------------------------------------------------------
  // The three directives. Each is a regular expression in CPython's _strptime;
  // the alternatives are written out as they are there.

  /** The value of a decimal digit. */
  function Digit(c: char): int { c as int - '0' as int }

  /** `%d`: 3[01] | [12]\d | 0[1-9] | [1-9] | " "[1-9] */
  function DayField(t: string): (r: Option<int>)
    ensures r.Some? ==> 1 <= r.value <= 31
  {
    if |t| == 2 && t[0] == '3' && (t[1] == '0' || t[1] == '1') then Some(10 * Digit(t[0]) + Digit(t[1]))
    else if |t| == 2 && (t[0] == '1' || t[0] == '2') && IsDigit(t[1]) then Some(10 * Digit(t[0]) + Digit(t[1]))
    else if |t| == 2 && t[0] == '0' && '1' <= t[1] <= '9' then Some(Digit(t[1]))
    else if |t| == 1 && '1' <= t[0] <= '9' then Some(Digit(t[0]))
    else if |t| == 2 && t[0] == ' ' && '1' <= t[1] <= '9' then Some(Digit(t[1]))
    else None
  }

  /** `%m`: 1[0-2] | 0[1-9] | [1-9] */
  function MonthField(t: string): (r: Option<int>)
    ensures r.Some? ==> 1 <= r.value <= 12
  {
    if |t| == 2 && t[0] == '1' && '0' <= t[1] <= '2' then Some(10 + Digit(t[1]))
    else if |t| == 2 && t[0] == '0' && '1' <= t[1] <= '9' then Some(Digit(t[1]))
    else if |t| == 1 && '1' <= t[0] <= '9' then Some(Digit(t[0]))
    else None
  }

  /** `%Y`: exactly four digits. */
  function YearField(t: string): (r: Option<int>)
    ensures r.Some? ==> 0 <= r.value <= 9999
  {
    if |t| == 4 && AllDigits(t) then Some(1000 * Digit(t[0]) + 100 * Digit(t[1]) + 10 * Digit(t[2]) + Digit(t[3]))
    else None
  }

  /** The index of the first '-' in `s`, or |s| when there is none. */
  function DashIndex(s: string): (i: nat)
    ensures i <= |s| && (i < |s| ==> s[i] == '-')
    ensures forall k :: 0 <= k < i ==> s[k] != '-'
  {
    if s == [] || s[0] == '-' then 0 else 1 + DashIndex(s[1..])
  }

  /** The date the three field texts spell, when each matches its directive and the date exists. */
  function Assemble(dd: string, mm: string, yyyy: string): (r: Option<Date>)
    ensures r.Some? ==> IsValid(r.value)
  {
    var day, month, year := DayField(dd), MonthField(mm), YearField(yyyy);
    if day.Some? && month.Some? && year.Some? && IsValid(Date(day.value, month.value, year.value))
    then Some(Date(day.value, month.value, year.value))
    else None
  }

  /** `datetime.strptime(s, "%d-%m-%Y").date()` on ASCII digits, or None where
      it raises ValueError. The pattern must match the whole string (otherwise
      "unconverted data remains"), and the date must exist. No directive matches a '-', so the
      fields are exactly the text around the first two dashes. */
  function ParseDate(s: string): (r: Option<Date>)
    ensures r.Some? ==> IsValid(r.value)
  {
    var i := DashIndex(s);
    if i == |s| then None
    else
      var rest := s[i + 1..];
      var j := DashIndex(rest);
      if j == |rest| then None
      else Assemble(s[..i], rest[..j], rest[j + 1..])
  }

  /** A string of three dash-free fields is parsed field by field. */
  lemma ParseFields(dd: string, mm: string, yyyy: string)
    requires forall k :: 0 <= k < |dd| ==> dd[k] != '-'
    requires forall k :: 0 <= k < |mm| ==> mm[k] != '-'
    ensures ParseDate(dd + "-" + mm + "-" + yyyy) == Assemble(dd, mm, yyyy)
  {
    var s := dd + "-" + mm + "-" + yyyy;
    DashIndexOf(dd, mm + "-" + yyyy);
    assert s == dd + "-" + (mm + "-" + yyyy);
    var rest := s[|dd| + 1..];
    assert rest == mm + "-" + yyyy;
    DashIndexOf(mm, yyyy);
    assert s[..|dd|] == dd && rest[..|mm|] == mm && rest[|mm| + 1..] == yyyy;
  }

  lemma {:induction false} DashIndexOf(field: string, tail: string)
    requires forall k :: 0 <= k < |field| ==> field[k] != '-'
    ensures DashIndex(field + "-" + tail) == |field|
  {
    if field != [] {
      assert (field + "-" + tail)[1..] == field[1..] + "-" + tail;
      DashIndexOf(field[1..], tail);
    }
  }

  // ---------------------------------------------------------------------------
  // The canonical spelling dd-mm-yyyy, and the round trip.

  function Pad2(n: nat): (s: string)
    requires n < 100
    ensures |s| == 2 && AllDigits(s) && 10 * Digit(s[0]) + Digit(s[1]) == n
  {
    [DigitChar(n / 10), DigitChar(n % 10)]
  }

  function Pad4(n: nat): (s: string)
    requires n < 10000
    ensures |s| == 4 && AllDigits(s)
    ensures 1000 * Digit(s[0]) + 100 * Digit(s[1]) + 10 * Digit(s[2]) + Digit(s[3]) == n
  {
    Pad2(n / 100) + Pad2(n % 100)
  }

  function FormatDate(d: Date): (s: string)
    requires IsValid(d)
    ensures |s| == 10 && s[2] == '-' && s[5] == '-'
  {
    Pad2(d.day) + "-" + Pad2(d.month) + "-" + Pad4(d.year)
  }

  lemma DayFieldPad2(n: nat)
    requires 1 <= n <= 31
    ensures DayField(Pad2(n)) == Some(n)
  {
    var t := Pad2(n);
    assert Digit(t[0]) == n / 10 && Digit(t[1]) == n % 10;
  }

  lemma MonthFieldPad2(n: nat)
    requires 1 <= n <= 12
    ensures MonthField(Pad2(n)) == Some(n)
  {
    var t := Pad2(n);
    assert Digit(t[0]) == n / 10 && Digit(t[1]) == n % 10;
  }

  /** Parsing the dd-mm-yyyy spelling of a valid date gives that date back. */
  lemma ParseFormat(d: Date)
    requires IsValid(d)
    ensures ParseDate(FormatDate(d)) == Some(d)
  {
    var dd, mm, yyyy := Pad2(d.day), Pad2(d.month), Pad4(d.year);
    assert forall k :: 0 <= k < |dd| ==> dd[k] != '-';
    assert forall k :: 0 <= k < |mm| ==> mm[k] != '-';
    ParseFields(dd, mm, yyyy);
    DayFieldPad2(d.day);
    MonthFieldPad2(d.month);
    assert YearField(yyyy) == Some(d.year);
  }

  /** Conversely, a ten-character string that parses, and that does not use the
      space-padded day, is exactly the dd-mm-yyyy spelling of its date. */
  lemma FormatParse(s: string, d: Date)
    requires ParseDate(s) == Some(d) && |s| == 10 && s[0] != ' '
    ensures FormatDate(d) == s
  {
    var i := DashIndex(s);
    var rest := s[i + 1..];
    var j := DashIndex(rest);
    var dd, mm, yyyy := s[..i], rest[..j], rest[j + 1..];
    assert Assemble(dd, mm, yyyy) == Some(d);
    assert |dd| <= 2 && |mm| <= 2 && |yyyy| == 4;
    assert s == dd + "-" + mm + "-" + yyyy;
    TwoDigitDay(dd);
    TwoDigitMonth(mm);
    FourDigitYear(yyyy);
  }

  lemma TwoDigitDay(t: string)
    requires |t| == 2 && t[0] != ' ' && DayField(t).Some?
    ensures Pad2(DayField(t).value) == t
  {
    assert AllDigits(t);
    Pad2Of(t);
  }

  lemma TwoDigitMonth(t: string)
    requires |t| == 2 && MonthField(t).Some?
    ensures Pad2(MonthField(t).value) == t
  {
    assert AllDigits(t);
    Pad2Of(t);
  }

  lemma FourDigitYear(t: string)
    requires YearField(t).Some?
    ensures Pad4(YearField(t).value) == t
  {
    Pad4Of(t);
  }

  lemma DigitCharOf(c: char)
    requires IsDigit(c)
    ensures DigitChar(Digit(c)) == c
  {
  }

  lemma Pad2Of(t: string)
    requires |t| == 2 && AllDigits(t)
    ensures Pad2(10 * Digit(t[0]) + Digit(t[1])) == t
  {
    var n := 10 * Digit(t[0]) + Digit(t[1]);
    assert n / 10 == Digit(t[0]) && n % 10 == Digit(t[1]);
    DigitCharOf(t[0]);
    DigitCharOf(t[1]);
  }

  lemma Pad4Of(t: string)
    requires |t| == 4 && AllDigits(t)
    ensures Pad4(1000 * Digit(t[0]) + 100 * Digit(t[1]) + 10 * Digit(t[2]) + Digit(t[3])) == t
  {
    var hi, lo := 10 * Digit(t[0]) + Digit(t[1]), 10 * Digit(t[2]) + Digit(t[3]);
    var n := 100 * hi + lo;
    assert n == 1000 * Digit(t[0]) + 100 * Digit(t[1]) + 10 * Digit(t[2]) + Digit(t[3]);
    assert n / 100 == hi && n % 100 == lo;
    Pad2Of(t[..2]);
    Pad2Of(t[2..]);
    assert t == t[..2] + t[2..];
  }

  // ---------------------------------------------------------------------------
  // Examples

  /** February 29 exists only in leap years. */
  lemma RejectsFebruary29In2023()
    ensures ParseDate("29-02-2023") == None
  {
    ParseFields("29", "02", "2023");
    assert "29-02-2023" == "29" + "-" + "02" + "-" + "2023";
    assert DayField("29") == Some(29);
    assert MonthField("02") == Some(2);
    assert YearField("2023") == Some(2023);
    assert DaysInMonth(2, 2023) == 28;
  }

  lemma AcceptsFebruary29In2024()
    ensures ParseDate("29-02-2024") == Some(Date(29, 2, 2024))
  {
    ParseFormat(Date(29, 2, 2024));
    assert FormatDate(Date(29, 2, 2024)) == "29-02-2024";
  }

  /** April has 30 days. */
  lemma RejectsApril31()
    ensures ParseDate("31-04-2024") == None
  {
    ParseFields("31", "04", "2024");
    assert "31-04-2024" == "31" + "-" + "04" + "-" + "2024";
    assert MonthField("04") == Some(4);
  }

  lemma AcceptsFifthOfMarch()
    ensures ParseDate("05-03-2024") == Some(Date(5, 3, 2024))
  {
    ParseFormat(Date(5, 3, 2024));
    assert FormatDate(Date(5, 3, 2024)) == "05-03-2024";
  }

  /** Unpadded days and months are accepted too. */
  lemma AcceptsUnpaddedFields()
    ensures ParseDate("5-3-2024") == Some(Date(5, 3, 2024))
  {
    ParseFields("5", "3", "2024");
    assert DayField("5") == Some(5) && MonthField("3") == Some(3) && YearField("2024") == Some(2024);
    assert "5-3-2024" == "5" + "-" + "3" + "-" + "2024";
  }

  /** So is a day padded with a space, the last alternative of `%d`. */
  lemma AcceptsSpacePaddedDay()
    ensures ParseDate(" 5-03-2024") == Some(Date(5, 3, 2024))
  {
    ParseFields(" 5", "03", "2024");
    assert DayField(" 5") == Some(5) && MonthField("03") == Some(3) && YearField("2024") == Some(2024);
    assert IsValid(Date(5, 3, 2024));
    assert " 5-03-2024" == " 5" + "-" + "03" + "-" + "2024";
  }

  /** A two-digit year, day 00 and month 13 are refused. */
  lemma RejectsTwoDigitYear()
    ensures ParseDate("05-03-24") == None
  {
    ParseFields("05", "03", "24");
    assert "05-03-24" == "05" + "-" + "03" + "-" + "24";
    assert YearField("24") == None;
  }

  lemma RejectsDayZero()
    ensures ParseDate("00-03-2024") == None
  {
    ParseFields("00", "03", "2024");
    assert "00-03-2024" == "00" + "-" + "03" + "-" + "2024";
    assert DayField("00") == None;
  }

  lemma RejectsMonthThirteen()
    ensures ParseDate("05-13-2024") == None
  {
    ParseFields("05", "13", "2024");
    assert "05-13-2024" == "05" + "-" + "13" + "-" + "2024";
    assert MonthField("13") == None;
  }
}
