/** `seleccionar_fecha_jquery_ui`, the part that does not touch the page: a
    parsed date is split into the values the jQuery UI datepicker is driven
    with, and the XPath of the day cell to click is built. */
module DatePicker {
  import opened Text
  import opened Calendar

  /** The day, the month counted from 0 (the widget's `data-month`), and the year. */
  datatype Selection = Selection(day: nat, month0: nat, year: nat)

  function Decompose(d: Date): (w: Selection)
    requires IsValid(d)
    ensures 1 <= w.day <= 31 && w.month0 <= 11 && MinYear <= w.year <= MaxYear
    ensures w.day == d.day && w.month0 + 1 == d.month && w.year == d.year
  {
    Selection(d.day, d.month - 1, d.year)
  }

  /** The calendar date a selection stands for. */
  function Recompose(w: Selection): Date {
    Date(w.day, w.month0 + 1, w.year)
  }

  /** Splitting a date for the widget loses nothing. */
  lemma DecomposeRoundTrip(d: Date)
    requires IsValid(d)
    ensures Recompose(Decompose(d)) == d
    ensures IsValid(Recompose(Decompose(d)))
  {
  }

  /** The option chosen in the year select: `str(anio)`. */
  function YearOption(w: Selection): string { NatToString(w.year) }

  /** The option chosen in the month select: `str(mes)`, the zero-based month. */
  function MonthOption(w: Selection): string { NatToString(w.month0) }

  const CalendarCell := "//table[@class='ui-datepicker-calendar']//td[@data-handler='selectDay' and @data-month='"
  const YearAttribute := "' and @data-year='"
  const DayText := "']/a[text()='"
  const CellEnd := "']"

  /** The day cell: tagged with the zero-based month and the year, showing the day without padding. */
  function DayCellXPath(w: Selection): string {
    CalendarCell + (NatToString(w.month0) + (YearAttribute + (NatToString(w.year) + (DayText + (NatToString(w.day) + CellEnd)))))
  }

  /** A number printed between a fixed prefix and a non-digit can be read back. */
  lemma PeelNumber(p: string, m: nat, r1: string, n: nat, r2: string)
    requires r1 != [] && !IsDigit(r1[0]) && r2 != [] && !IsDigit(r2[0])
    requires p + (NatToString(m) + r1) == p + (NatToString(n) + r2)
    ensures m == n && r1 == r2
  {
    assert NatToString(m) + r1 == (p + (NatToString(m) + r1))[|p|..];
    assert NatToString(n) + r2 == (p + (NatToString(n) + r2))[|p|..];
    DigitsPrefixUnique(NatToString(m), r1, NatToString(n), r2);
    NatToStringInjective(m, n);
  }

  /** The XPath names one selection: month, year and day can be read back from it. */
  lemma DayCellXPathInjective(v: Selection, w: Selection)
    ensures DayCellXPath(v) == DayCellXPath(w) <==> v == w
  {
    if DayCellXPath(v) == DayCellXPath(w) {
      var uv := DayText + (NatToString(v.day) + CellEnd);
      var uw := DayText + (NatToString(w.day) + CellEnd);
      var tv := YearAttribute + (NatToString(v.year) + uv);
      var tw := YearAttribute + (NatToString(w.year) + uw);
      PeelNumber(CalendarCell, v.month0, tv, w.month0, tw);
      PeelNumber(YearAttribute, v.year, uv, w.year, uw);
      PeelNumber(DayText, v.day, CellEnd, w.day, CellEnd);
    }
  }

  /** `str(2024)` */
  lemma PrintsYear2024()
    ensures NatToString(2024) == "2024"
  {
    assert NatToString(20) == "20";
    assert NatToString(202) == "202";
  }

  /** The record dated 05-03-2024 selects year "2024", month "2" and the cell showing "5". */
  lemma FifthOfMarchSelection()
    ensures YearOption(Decompose(Date(5, 3, 2024))) == "2024"
    ensures MonthOption(Decompose(Date(5, 3, 2024))) == "2"
    ensures DayCellXPath(Decompose(Date(5, 3, 2024))) ==
      CalendarCell + "2" + YearAttribute + "2024" + DayText + "5" + CellEnd
  {
    PrintsYear2024();
    assert NatToString(2) == "2" && NatToString(5) == "5";
  }
}
