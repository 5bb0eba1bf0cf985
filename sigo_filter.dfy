/** The table filter of `sigo_login_Asesorias.py`: the rows of the SIGO
    settlement-request table (each a sequence of cell texts) become the
    records the Previred script submits. A row is kept when it has at least
    twelve cells, its end date parses as dd-mm-yyyy, and that date is on or
    before the limit date (the day the script runs). */
module SigoFilter {
  import opened Wrappers
  import opened Text
  import opened Calendar
  import opened Browser
  import opened Submission

  /** One row of the table, as the texts of its `td` cells. */
  type Row = seq<string>

  /** A record of `lista_resultados`. The end date is kept as the text of the cell. */
  datatype Entry = Entry(id: string, rut: string, empresa: string, fechaUltimoDia: string)

  /** The fewest cells a row must have. */
  const MinCells := 12

  /** Columns 1, 2, 8 and 11, each stripped: no field of the record starts
      or ends with white space. */
  function Project(cols: Row): (e: Entry)
    requires |cols| >= MinCells
    ensures e.id == Strip(cols[1]) && e.rut == Strip(cols[2])
    ensures e.empresa == Strip(cols[8]) && e.fechaUltimoDia == Strip(cols[11])
    ensures Trimmed(e.id) && Trimmed(e.rut) && Trimmed(e.empresa) && Trimmed(e.fechaUltimoDia)
  {
    Entry(Strip(cols[1]), Strip(cols[2]), Strip(cols[8]), Strip(cols[11]))
  }

  /** Whether the loop appends the row. */
  predicate Accepted(cols: Row, limit: Date) {
    |cols| >= MinCells &&
    match ParseDate(Strip(cols[11]))
    case None => false
    case Some(d) => OnOrBefore(d, limit)
  }

  /** What the loop leaves in `lista_resultados` after the given rows. */
  function Filter(rows: seq<Row>, limit: Date): (r: seq<Entry>)
    ensures |r| <= |rows|
    decreases |rows|
  {
    if rows == [] then []
    else
      var n := |rows| - 1;
      Filter(rows[..n], limit) + if Accepted(rows[n], limit) then [Project(rows[n])] else []
  }

  /** One more row: the output grows by the projection of that row exactly when the row is accepted. */
  lemma FilterAppend(rows: seq<Row>, row: Row, limit: Date)
    ensures Filter(rows + [row], limit) == Filter(rows, limit) + if Accepted(row, limit) then [Project(row)] else []
  {
    assert (rows + [row])[..|rows|] == rows;
  }

  /** A row with fewer than twelve cells adds nothing. */
  lemma ShortRowSkipped(rows: seq<Row>, row: Row, limit: Date)
    requires |row| < MinCells
    ensures Filter(rows + [row], limit) == Filter(rows, limit)
  {
    FilterAppend(rows, row, limit);
  }

  /** A row whose end date does not parse adds nothing, whatever the limit. */
  lemma UnparsableDateSkipped(rows: seq<Row>, row: Row, limit: Date)
    requires |row| >= MinCells && ParseDate(Strip(row[11])).None?
    ensures Filter(rows + [row], limit) == Filter(rows, limit)
  {
    FilterAppend(rows, row, limit);
  }

  /** A row whose end date parses is added exactly when that date is on or before the limit; the limit itself is included. */
  lemma DatedRowKeptIffOnOrBefore(rows: seq<Row>, row: Row, limit: Date, d: Date)
    requires |row| >= MinCells && ParseDate(Strip(row[11])) == Some(d)
    ensures Filter(rows + [row], limit) == Filter(rows, limit) + [Project(row)] <==> OnOrBefore(d, limit)
    ensures d == limit ==> Filter(rows + [row], limit) == Filter(rows, limit) + [Project(row)]
  {
    FilterAppend(rows, row, limit);
    if !OnOrBefore(d, limit) {
      assert |Filter(rows + [row], limit)| == |Filter(rows, limit)|;
    }
  }

  // ---------------------------------------------------------------------------
  // A filter-and-project loop over any keep test and projection, so that the
  // facts about order and selection are proved once, without unfolding the
  // date parser.

  /** The rows `keep` accepts, projected by `proj`, in order. */
  function Select(rows: seq<Row>, keep: Row -> bool, proj: Row -> Entry): seq<Entry>
    decreases |rows|
  {
    if rows == [] then []
    else
      var n := |rows| - 1;
      Select(rows[..n], keep, proj) + if keep(rows[n]) then [proj(rows[n])] else []
  }

  /** The positions of the rows `keep` accepts, in order. */
  function Positions(rows: seq<Row>, keep: Row -> bool): seq<nat>
    decreases |rows|
  {
    if rows == [] then []
    else
      var n := |rows| - 1;
      Positions(rows[..n], keep) + if keep(rows[n]) then [n] else []
  }

  /** `out` is the projection of the rows at the strictly increasing positions
      `idx`, which are exactly the positions of the accepted rows. */
  predicate IsOrderedSelection(rows: seq<Row>, keep: Row -> bool, proj: Row -> Entry, idx: seq<nat>, out: seq<Entry>) {
    |out| == |idx| &&
    (forall k :: 0 <= k < |idx| ==> idx[k] < |rows| && keep(rows[idx[k]]) && out[k] == proj(rows[idx[k]])) &&
    (forall a, b :: 0 <= a < b < |idx| ==> idx[a] < idx[b]) &&
    (forall j :: 0 <= j < |rows| && keep(rows[j]) ==> j in idx)
  }

  lemma SelectionAppend(rows: seq<Row>, row: Row, keep: Row -> bool, proj: Row -> Entry, idx: seq<nat>, out: seq<Entry>)
    requires IsOrderedSelection(rows, keep, proj, idx, out)
    ensures IsOrderedSelection(rows + [row], keep, proj,
        idx + (if keep(row) then [|rows|] else []),
        out + (if keep(row) then [proj(row)] else []))
  {
    var all := rows + [row];
    var n := |rows|;
    var idx', out' := idx + (if keep(row) then [n] else []), out + (if keep(row) then [proj(row)] else []);
    assert forall j :: 0 <= j < n ==> all[j] == rows[j];
    assert all[n] == row;
    forall k | 0 <= k < |idx'|
      ensures idx'[k] < |all| && keep(all[idx'[k]]) && out'[k] == proj(all[idx'[k]])
    {
      if k < |idx| {
        assert idx'[k] == idx[k] && out'[k] == out[k];
      }
    }
    forall j | 0 <= j < |all| && keep(all[j]) ensures j in idx' {
      if j < n {
        assert j in idx;
      } else {
        assert idx'[|idx|] == n;
      }
    }
  }

  lemma {:induction false} SelectIsOrderedSelection(rows: seq<Row>, keep: Row -> bool, proj: Row -> Entry)
    ensures IsOrderedSelection(rows, keep, proj, Positions(rows, keep), Select(rows, keep, proj))
    decreases |rows|
  {
    if rows != [] {
      var n := |rows| - 1;
      var init := rows[..n];
      SelectIsOrderedSelection(init, keep, proj);
      SelectionAppend(init, rows[n], keep, proj, Positions(init, keep), Select(init, keep, proj));
      assert init + [rows[n]] == rows;
    }
  }

  /** `Project` made total, for `Select`; it is applied only to accepted rows, which have twelve cells. */
  function Cells(cols: Row): Entry {
    if |cols| >= MinCells then Project(cols) else Entry("", "", "", "")
  }

  lemma {:induction false} FilterIsSelect(rows: seq<Row>, limit: Date)
    ensures Filter(rows, limit) == Select(rows, r => Accepted(r, limit), Cells)
    decreases |rows|
  {
    if rows != [] {
      FilterIsSelect(rows[..|rows| - 1], limit);
    }
  }

  /** The output is the subsequence of accepted rows, projected, in table
      order: the accepted positions are strictly increasing, each names an
      accepted row whose projection is the output record, and every accepted
      row is named. */
  lemma FilterIsOrderedSelection(rows: seq<Row>, limit: Date)
    ensures var keep := r => Accepted(r, limit);
      var idx := Positions(rows, keep);
      |Filter(rows, limit)| == |idx| &&
      (forall k :: 0 <= k < |idx| ==> idx[k] < |rows| && Accepted(rows[idx[k]], limit) && Filter(rows, limit)[k] == Project(rows[idx[k]])) &&
      (forall a, b :: 0 <= a < b < |idx| ==> idx[a] < idx[b]) &&
      (forall j :: 0 <= j < |rows| && Accepted(rows[j], limit) ==> j in idx)
  {
    var keep := r => Accepted(r, limit);
    FilterIsSelect(rows, limit);
    SelectIsOrderedSelection(rows, keep, Cells);
  }

  /** Every record that leaves the filter has an end date that parses and is
      not later than the limit. */
  lemma {:induction false} FilteredDatesParse(rows: seq<Row>, limit: Date)
    ensures forall k :: 0 <= k < |Filter(rows, limit)| ==>
      match ParseDate(Filter(rows, limit)[k].fechaUltimoDia)
      case None => false
      case Some(d) => OnOrBefore(d, limit)
  {
    FilterIsOrderedSelection(rows, limit);
  }

  /** The JSON object written for an entry, as the submission script reads it back. */
  function ToRecord(e: Entry): (reg: Record)
    ensures IdKey in reg && RutKey in reg && DateKey in reg
    ensures reg[IdKey] == e.id && reg[RutKey] == e.rut && reg[DateKey] == e.fechaUltimoDia
  {
    map[IdKey := e.id, RutKey := e.rut, "empresa" := e.empresa, DateKey := e.fechaUltimoDia]
  }

  /** Both scripts parse the end date with the same format, so a record that
      leaves the filter is never stopped by its date: once the date field is
      open, the submission goes on to the year select. */
  lemma FilteredRecordsReachDatePicker(rows: seq<Row>, limit: Date, k: nat, failing: set<Step>)
    requires k < |Filter(rows, limit)|
    ensures NoHalt(Form(ToRecord(Filter(rows, limit)[k]), failing))
    ensures var reg := ToRecord(Filter(rows, limit)[k]);
      FormEntry(reg[RutKey], failing).stop.None? ==> Ran(Form(reg, failing).actions, SelectYear)
  {
    FilteredDatesParse(rows, limit);
    ParsableDateNeverHalts(ToRecord(Filter(rows, limit)[k]), failing);
  }

  /** The `for row in rows` loop of `main`, appending to `lista_resultados`. */
  method FilterRows(rows: seq<Row>, limit: Date) returns (lista: seq<Entry>)
    ensures lista == Filter(rows, limit)
  {
    lista := [];
    for i := 0 to |rows|
      invariant lista == Filter(rows[..i], limit)
    {
      var cols := rows[i];
      assert rows[..i + 1] == rows[..i] + [cols];
      FilterAppend(rows[..i], cols, limit);
      if |cols| < MinCells {
        continue;
      }
      var e := Project(cols);
      var parsed := ParseDate(e.fechaUltimoDia);
      if parsed.None? {
        continue;
      }
      if OnOrBefore(parsed.value, limit) {
        lista := lista + [e];
      }
    }
    assert rows[..|rows|] == rows;
  }
}
