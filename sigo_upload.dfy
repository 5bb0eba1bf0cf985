/** `sigo_upload_Business.py`: for each record, in JSON order, the stored
    `{id}.pdf` is attached to the matching SIGO request. A record whose table
    cell does not appear, or whose PDF is not in the download folder, is
    skipped; a failed Guardar is only logged; every other failure (the filter
    field not visible, the row click, the upload input, the file, Avanzar)
    leaves the loop and ends the run. The driver is quit once, in `finally`. */
module SigoUpload {
  import opened Wrappers
  import opened Browser
  import opened Downloads
  import opened Submission

  /** How one record ended. */
  datatype Upload = Uploaded(saved: bool) | Skipped(stage: Step) | Aborted(stage: Step)

  /** The interactions of one record and how it ended. */
  datatype UploadResult = UploadResult(actions: seq<Action>, outcome: Upload)

  /** The cell the filtered table must show. */
  function CellXPath(id: string): string {
    "//table//td[text()='" + id + "']"
  }

  /** `os.path.join(descarga_dir, f"{record_id}.pdf")` */
  function FilePath(id: string): string {
    DownloadDir + "/" + PdfName(id)
  }

  /** Step 0, best effort: when the filter field is found but hidden, click its
      label, forcing the label visible by JavaScript when the click fails. Any
      failure here is only logged. */
  function RevealFilter(failing: set<Step>): seq<Action> {
    if FindFilter in failing then [Action(FindFilter, "")]
    else if FilterDisplayed !in failing then [Action(FindFilter, ""), Action(FilterDisplayed, "")]
    else [Action(FindFilter, ""), Action(FilterDisplayed, "")] + Retry(ClickFilterLabel, ForceFilterLabel, failing).actions
  }

  /** Step 1: wait for the visible filter, clear it (by JavaScript when `clear()`
      fails) and type the id. Each failure here ends the run. */
  function EnterId(id: string, failing: set<Step>): Progress {
    Chain(Do(WaitFilter, "", failing), Chain(Retry(ClearFilter, JsClearFilter, failing), Do(TypeFilter, id, failing)))
  }

  /** Steps 0 and 1. */
  function Prelude(id: string, failing: set<Step>): Progress {
    Chain(Progress(RevealFilter(failing), None), EnterId(id, failing))
  }

  /** Steps 2.1 and 3: click the row, wait for the upload input. */
  function OpenRow(failing: set<Step>): Progress {
    Chain(Do(ClickRow, "", failing), Do(WaitUploadInput, "", failing))
  }

  /** Steps 5 and 6: Avanzar, wait for the filter again and clear it for the next record. */
  function Advance(failing: set<Step>): Progress {
    Chain(Do(ClickAdvance, "", failing),
    Chain(Do(WaitFilterAgain, "", failing),
          Retry(ClearFilterAgain, JsClearFilterAgain, failing)))
  }

  /** Steps 3 to 6 once the file exists: send it, Guardar (failure only logged), then `Advance`. */
  function Submit(id: string, failing: set<Step>): Progress {
    Chain(Do(SendFile, FilePath(id), failing), Chain(Try(ClickSave, ""), Advance(failing)))
  }

  /** Everything after the id cell was found: open the row, look for the PDF in
      the download folder `names`, send it and advance. */
  function Attach(id: string, failing: set<Step>, names: set<string>): UploadResult {
    var row := OpenRow(failing);
    if row.stop.Some? then UploadResult(row.actions, Aborted(row.stop.value))
    else if PdfName(id) !in names then UploadResult(row.actions, Skipped(PdfExists))
    else
      var sub := Submit(id, failing);
      UploadResult(row.actions + sub.actions, if sub.stop.Some? then Aborted(sub.stop.value) else Uploaded(ClickSave !in failing))
  }

  /** Steps 2 to 6: look for the id's cell in the filtered table and, when it
      appears, attach the file. */
  function Row(id: string, failing: set<Step>, names: set<string>): UploadResult {
    var cell := [Action(FindIdCell, CellXPath(id))];
    if FindIdCell in failing then UploadResult(cell, Skipped(FindIdCell))
    else
      var rest := Attach(id, failing, names);
      UploadResult(cell + rest.actions, rest.outcome)
  }

  /** One pass of the loop body; `names` is the download folder. */
  function UploadRecord(reg: Record, failing: set<Step>, names: set<string>): UploadResult {
    if IdKey !in reg then UploadResult([], Aborted(ReadRecord))
    else
      var pre := Prelude(reg[IdKey], failing);
      if pre.stop.Some? then UploadResult(pre.actions, Aborted(pre.stop.value))
      else
        var row := Row(reg[IdKey], failing, names);
        UploadResult(pre.actions + row.actions, row.outcome)
  }

  // ---------------------------------------------------------------------------
  // The filter field's text.

  /** The steps that empty the filter field when they succeed. */
  predicate Clears(s: Step) {
    s == ClearFilter || s == JsClearFilter || s == ClearFilterAgain || s == JsClearFilterAgain
  }

  /** What one interaction does to the text of the filter field: a successful
      clear empties it, a successful `send_keys` appends to what is there. */
  function Effect(x: Action, failing: set<Step>, v: string): string {
    if x.step in failing then v
    else if Clears(x.step) then ""
    else if x.step == TypeFilter then v + x.arg
    else v
  }

  /** The text of the filter field after `a`, starting from `v`. */
  function FilterValue(a: seq<Action>, failing: set<Step>, v: string): string
    decreases |a|
  {
    if a == [] then v else Effect(a[|a| - 1], failing, FilterValue(a[..|a| - 1], failing, v))
  }

  lemma FilterValueSnoc(a: seq<Action>, x: Action, failing: set<Step>, v: string)
    ensures FilterValue(a + [x], failing, v) == Effect(x, failing, FilterValue(a, failing, v))
  {
    assert (a + [x])[..|a|] == a;
  }

  lemma {:induction false} FilterValueAppend(a: seq<Action>, b: seq<Action>, failing: set<Step>, v: string)
    ensures FilterValue(a + b, failing, v) == FilterValue(b, failing, FilterValue(a, failing, v))
    decreases |b|
  {
    if b == [] {
      assert a + b == a;
    } else {
      var n := |b| - 1;
      assert a + b == (a + b[..n]) + [b[n]];
      FilterValueSnoc(a + b[..n], b[n], failing, v);
      FilterValueAppend(a, b[..n], failing, v);
    }
  }

  /** None of the actions types into or clears the filter. */
  predicate LeavesFilter(a: seq<Action>) {
    forall i :: 0 <= i < |a| ==> !Clears(a[i].step) && a[i].step != TypeFilter
  }

  lemma {:induction false} LeavesFilterKeeps(a: seq<Action>, failing: set<Step>, v: string)
    requires LeavesFilter(a)
    ensures FilterValue(a, failing, v) == v
    decreases |a|
  {
    if a != [] {
      LeavesFilterKeeps(a[..|a| - 1], failing, v);
    }
  }

  /** Clearing, directly or by JavaScript, empties the field unless both ways fail. */
  lemma RetryFilter(step: Step, fallback: Step, failing: set<Step>, v: string)
    requires Clears(step) && Clears(fallback)
    ensures FilterValue(Retry(step, fallback, failing).actions, failing, v) ==
      if Retry(step, fallback, failing).stop.None? then "" else v
  {
    if step in failing {
      FilterValueSnoc([Action(step, "")], Action(fallback, ""), failing, v);
    }
  }

  /** Revealing the filter does not change its text. */
  lemma RevealKeepsFilter(failing: set<Step>, v: string)
    ensures FilterValue(RevealFilter(failing), failing, v) == v
  {
    LeavesFilterKeeps(RevealFilter(failing), failing, v);
  }

  /** Whichever way it is cleared, the field is empty when the id is typed, so
      once step 1 succeeds it holds exactly the id, whatever it held before;
      when only the typing fails it is left empty, and otherwise untouched. */
  lemma EnterIdFilter(id: string, failing: set<Step>, v: string)
    ensures FilterValue(EnterId(id, failing).actions, failing, v) ==
      if EnterId(id, failing).stop.None? then id
      else if EnterId(id, failing).stop == Some(TypeFilter) then ""
      else v
  {
    var w := [Action(WaitFilter, "")];
    LeavesFilterKeeps(w, failing, v);
    if WaitFilter !in failing {
      var clear := Retry(ClearFilter, JsClearFilter, failing);
      FilterValueAppend(w, clear.actions, failing, v);
      RetryFilter(ClearFilter, JsClearFilter, failing, v);
      if clear.stop.None? {
        assert EnterId(id, failing).actions == (w + clear.actions) + [Action(TypeFilter, id)];
        FilterValueSnoc(w + clear.actions, Action(TypeFilter, id), failing, v);
      }
    }
  }

  /** Once the file is sent and Avanzar done, the field is cleared for the next
      record; when the run stops earlier the field is left as it was. */
  lemma SubmitFilter(id: string, failing: set<Step>, v: string)
    ensures FilterValue(Submit(id, failing).actions, failing, v) ==
      if Submit(id, failing).stop.None? then "" else v
  {
    var head := [Action(SendFile, FilePath(id)), Action(ClickSave, ""), Action(ClickAdvance, ""), Action(WaitFilterAgain, "")];
    var clear := Retry(ClearFilterAgain, JsClearFilterAgain, failing);
    if SendFile in failing || ClickAdvance in failing || WaitFilterAgain in failing {
      LeavesFilterKeeps(Submit(id, failing).actions, failing, v);
    } else {
      assert Submit(id, failing).actions == head + clear.actions;
      LeavesFilterKeeps(head, failing, v);
      FilterValueAppend(head, clear.actions, failing, v);
      RetryFilter(ClearFilterAgain, JsClearFilterAgain, failing, v);
    }
  }

  /** Opening the row and checking the PDF leave the field alone; a completed upload clears it. */
  lemma AttachFilter(id: string, failing: set<Step>, names: set<string>, v: string)
    ensures FilterValue(Attach(id, failing, names).actions, failing, v) ==
      if Attach(id, failing, names).outcome.Uploaded? then "" else v
  {
    var row := OpenRow(failing);
    LeavesFilterKeeps(row.actions, failing, v);
    if row.stop.None? && PdfName(id) in names {
      FilterValueAppend(row.actions, Submit(id, failing).actions, failing, v);
      SubmitFilter(id, failing, v);
    }
  }

  /** Once steps 0 and 1 succeed, the field holds exactly the id, whatever it held before. */
  lemma PreludeFilter(id: string, failing: set<Step>, v: string)
    requires Prelude(id, failing).stop.None?
    ensures FilterValue(Prelude(id, failing).actions, failing, v) == id
  {
    assert Prelude(id, failing).actions == RevealFilter(failing) + EnterId(id, failing).actions;
    FilterValueAppend(RevealFilter(failing), EnterId(id, failing).actions, failing, v);
    RevealKeepsFilter(failing, v);
    EnterIdFilter(id, failing, v);
  }

  /** Looking up the cell leaves the field alone; a completed upload clears it. */
  lemma RowFilter(id: string, failing: set<Step>, names: set<string>, v: string)
    ensures FilterValue(Row(id, failing, names).actions, failing, v) ==
      if Row(id, failing, names).outcome.Uploaded? then "" else v
  {
    var cell := [Action(FindIdCell, CellXPath(id))];
    LeavesFilterKeeps(cell, failing, v);
    if FindIdCell !in failing {
      FilterValueAppend(cell, Attach(id, failing, names).actions, failing, v);
      AttachFilter(id, failing, names, v);
    }
  }

  /** After a record that does not end the run, the filter holds what this
      record left, whatever it held before: the id when the record was
      skipped, nothing when it was uploaded. */
  lemma FilterAfterRecord(reg: Record, failing: set<Step>, names: set<string>, v: string)
    requires IdKey in reg && !UploadRecord(reg, failing, names).outcome.Aborted?
    ensures FilterValue(UploadRecord(reg, failing, names).actions, failing, v) ==
      if UploadRecord(reg, failing, names).outcome.Uploaded? then "" else reg[IdKey]
  {
    var id := reg[IdKey];
    PreludeFilter(id, failing, v);
    FilterValueAppend(Prelude(id, failing).actions, Row(id, failing, names).actions, failing, v);
    RowFilter(id, failing, names, id);
  }

  // ---------------------------------------------------------------------------
  // Properties of one record.

  lemma RevealOrdered(failing: set<Step>)
    ensures Ascending(RevealFilter(failing)) && Within(RevealFilter(failing), 25, 29)
  {
    var head := [Action(FindFilter, ""), Action(FilterDisplayed, "")];
    if FindFilter !in failing && FilterDisplayed in failing {
      RetryOrdered(ClickFilterLabel, ForceFilterLabel, failing);
      AscendingAppend(head, Retry(ClickFilterLabel, ForceFilterLabel, failing).actions, 25, 27, 29);
    }
  }

  lemma ClearAndTypeOrdered(id: string, failing: set<Step>)
    ensures var p := Chain(Retry(ClearFilter, JsClearFilter, failing), Do(TypeFilter, id, failing));
      Ascending(p.actions) && Within(p.actions, 30, 33)
  {
    RetryOrdered(ClearFilter, JsClearFilter, failing);
    DoOrdered(TypeFilter, id, failing);
    ChainOrdered(Retry(ClearFilter, JsClearFilter, failing), Do(TypeFilter, id, failing), 30, 32, 33);
  }

  lemma EnterIdOrdered(id: string, failing: set<Step>)
    ensures Ascending(EnterId(id, failing).actions) && Within(EnterId(id, failing).actions, 29, 33)
  {
    DoOrdered(WaitFilter, "", failing);
    ClearAndTypeOrdered(id, failing);
    ChainOrdered(Do(WaitFilter, "", failing), Chain(Retry(ClearFilter, JsClearFilter, failing), Do(TypeFilter, id, failing)), 29, 30, 33);
  }

  /** Steps 0 and 1 are performed in the script's order, before the id cell is looked up. */
  lemma PreludeOrdered(id: string, failing: set<Step>)
    ensures Ascending(Prelude(id, failing).actions) && Within(Prelude(id, failing).actions, 25, 33)
  {
    RevealOrdered(failing);
    EnterIdOrdered(id, failing);
    ChainOrdered(Progress(RevealFilter(failing), None), EnterId(id, failing), 25, 29, 33);
  }

  lemma WaitAndClearOrdered(failing: set<Step>)
    ensures var p := Chain(Do(WaitFilterAgain, "", failing), Retry(ClearFilterAgain, JsClearFilterAgain, failing));
      Ascending(p.actions) && Within(p.actions, 40, 43)
  {
    RetryOrdered(ClearFilterAgain, JsClearFilterAgain, failing);
    DoOrdered(WaitFilterAgain, "", failing);
    ChainOrdered(Do(WaitFilterAgain, "", failing), Retry(ClearFilterAgain, JsClearFilterAgain, failing), 40, 41, 43);
  }

  lemma AdvanceOrdered(failing: set<Step>)
    ensures Ascending(Advance(failing).actions) && Within(Advance(failing).actions, 39, 43)
  {
    DoOrdered(ClickAdvance, "", failing);
    WaitAndClearOrdered(failing);
    ChainOrdered(Do(ClickAdvance, "", failing), Chain(Do(WaitFilterAgain, "", failing), Retry(ClearFilterAgain, JsClearFilterAgain, failing)), 39, 40, 43);
  }

  lemma SubmitOrdered(id: string, failing: set<Step>)
    ensures Ascending(Submit(id, failing).actions) && Within(Submit(id, failing).actions, 37, 43)
  {
    AdvanceOrdered(failing);
    DoOrdered(SendFile, FilePath(id), failing);
    DoOrdered(ClickSave, "", {});
    ChainOrdered(Try(ClickSave, ""), Advance(failing), 38, 39, 43);
    ChainOrdered(Do(SendFile, FilePath(id), failing), Chain(Try(ClickSave, ""), Advance(failing)), 37, 38, 43);
  }

  lemma AttachOrdered(id: string, failing: set<Step>, names: set<string>)
    ensures Ascending(Attach(id, failing, names).actions) && Within(Attach(id, failing, names).actions, 34, 43)
  {
    DoOrdered(ClickRow, "", failing);
    DoOrdered(WaitUploadInput, "", failing);
    ChainOrdered(Do(ClickRow, "", failing), Do(WaitUploadInput, "", failing), 34, 35, 36);
    SubmitOrdered(id, failing);
    AscendingAppend(OpenRow(failing).actions, Submit(id, failing).actions, 34, 37, 43);
  }

  lemma RowOrdered(id: string, failing: set<Step>, names: set<string>)
    ensures Ascending(Row(id, failing, names).actions) && Within(Row(id, failing, names).actions, 33, 43)
  {
    var cell := [Action(FindIdCell, CellXPath(id))];
    assert Ascending(cell) && Within(cell, 33, 34);
    if FindIdCell !in failing {
      AttachOrdered(id, failing, names);
      AscendingAppend(cell, Attach(id, failing, names).actions, 33, 34, 43);
    }
  }

  /** Each record's interactions follow the script's order, so none is repeated. */
  lemma UploadOrdered(reg: Record, failing: set<Step>, names: set<string>)
    ensures Ascending(UploadRecord(reg, failing, names).actions)
    ensures Within(UploadRecord(reg, failing, names).actions, 25, 43)
  {
    if IdKey in reg {
      var id := reg[IdKey];
      PreludeOrdered(id, failing);
      if Prelude(id, failing).stop.None? {
        RowOrdered(id, failing, names);
        AscendingAppend(Prelude(id, failing).actions, Row(id, failing, names).actions, 25, 33, 43);
      }
    }
  }

  /** When the id cell does not appear, the record is skipped: no row click, upload, Guardar or Avanzar. */
  lemma MissingCellSkipsRecord(reg: Record, failing: set<Step>, names: set<string>)
    requires IdKey in reg && Prelude(reg[IdKey], failing).stop.None? && FindIdCell in failing
    ensures UploadRecord(reg, failing, names).outcome == Skipped(FindIdCell)
    ensures !Ran(UploadRecord(reg, failing, names).actions, ClickRow)
    ensures !Ran(UploadRecord(reg, failing, names).actions, SendFile)
    ensures !Ran(UploadRecord(reg, failing, names).actions, ClickSave)
    ensures !Ran(UploadRecord(reg, failing, names).actions, ClickAdvance)
  {
    var a := UploadRecord(reg, failing, names).actions;
    var pre := Prelude(reg[IdKey], failing);
    PreludeOrdered(reg[IdKey], failing);
    assert a == pre.actions + [Action(FindIdCell, CellXPath(reg[IdKey]))];
    assert Within(a, 25, 34);
    NotRanOutside(a, 25, 34, ClickRow);
    NotRanOutside(a, 25, 34, SendFile);
    NotRanOutside(a, 25, 34, ClickSave);
    NotRanOutside(a, 25, 34, ClickAdvance);
  }

  /** When `{id}.pdf` is not in the download folder, the record is skipped before anything is sent, saved or advanced. */
  lemma MissingPdfSkipsRecord(reg: Record, failing: set<Step>, names: set<string>)
    requires IdKey in reg && Prelude(reg[IdKey], failing).stop.None? && FindIdCell !in failing
    requires OpenRow(failing).stop.None? && PdfName(reg[IdKey]) !in names
    ensures UploadRecord(reg, failing, names).outcome == Skipped(PdfExists)
    ensures !Ran(UploadRecord(reg, failing, names).actions, SendFile)
    ensures !Ran(UploadRecord(reg, failing, names).actions, ClickSave)
    ensures !Ran(UploadRecord(reg, failing, names).actions, ClickAdvance)
  {
    var a := UploadRecord(reg, failing, names).actions;
    var pre := Prelude(reg[IdKey], failing);
    var row := [Action(FindIdCell, CellXPath(reg[IdKey])), Action(ClickRow, ""), Action(WaitUploadInput, "")];
    PreludeOrdered(reg[IdKey], failing);
    assert Row(reg[IdKey], failing, names).actions == row;
    assert Ascending(row) && Within(row, 33, 36);
    AscendingAppend(pre.actions, row, 25, 33, 36);
    NotRanOutside(a, 25, 36, SendFile);
    NotRanOutside(a, 25, 36, ClickSave);
    NotRanOutside(a, 25, 36, ClickAdvance);
  }

  lemma AttachUploaded(id: string, failing: set<Step>, names: set<string>)
    requires Attach(id, failing, names).outcome.Uploaded?
    ensures var a := Attach(id, failing, names).actions;
      |a| >= 5 && a[2] == Action(SendFile, FilePath(id)) && a[3].step == ClickSave && a[4].step == ClickAdvance
  {
  }

  /** A completed upload sent `descarga_dir/{id}.pdf`, then pressed Guardar and Avanzar. */
  lemma UploadedSentStoredPdf(reg: Record, failing: set<Step>, names: set<string>)
    requires UploadRecord(reg, failing, names).outcome.Uploaded?
    ensures IdKey in reg && PdfName(reg[IdKey]) in names
    ensures Action(SendFile, DownloadDir + "/" + reg[IdKey] + ".pdf") in UploadRecord(reg, failing, names).actions
    ensures Ran(UploadRecord(reg, failing, names).actions, ClickSave)
    ensures Ran(UploadRecord(reg, failing, names).actions, ClickAdvance)
  {
    var id := reg[IdKey];
    var rest := Attach(id, failing, names);
    var a := UploadRecord(reg, failing, names).actions;
    assert a == Prelude(id, failing).actions + ([Action(FindIdCell, CellXPath(id))] + rest.actions);
    AttachUploaded(id, failing, names);
    var k := |Prelude(id, failing).actions| + 1;
    assert a[k + 2] == rest.actions[2];
    assert FilePath(id) == DownloadDir + "/" + id + ".pdf";
    assert StepsOf(a)[k + 3] == ClickSave;
    assert StepsOf(a)[k + 4] == ClickAdvance;
  }

  /** Guardar is optional: whether it fails changes nothing but the `saved` flag,
      so Avanzar and everything after it are attempted either way. */
  lemma SaveFailureOnlyWarns(reg: Record, failing: set<Step>, names: set<string>)
    ensures UploadRecord(reg, failing + {ClickSave}, names).actions == UploadRecord(reg, failing - {ClickSave}, names).actions
    ensures UploadRecord(reg, failing - {ClickSave}, names).outcome == Uploaded(true) <==>
            UploadRecord(reg, failing + {ClickSave}, names).outcome == Uploaded(false)
  {
    var f, g := failing - {ClickSave}, failing + {ClickSave};
    if IdKey in reg {
      var id := reg[IdKey];
      assert RevealFilter(f) == RevealFilter(g);
      assert Prelude(id, f) == Prelude(id, g);
      assert OpenRow(f) == OpenRow(g);
      assert Submit(id, f) == Submit(id, g);
    }
  }

  lemma PreludeStops(id: string, failing: set<Step>)
    ensures Prelude(id, failing).stop.Some? ==>
      Prelude(id, failing).stop.value in {WaitFilter, JsClearFilter, TypeFilter} && Prelude(id, failing).stop.value in failing
  {
  }

  lemma AttachStops(id: string, failing: set<Step>, names: set<string>)
    ensures Attach(id, failing, names).outcome.Skipped? ==> Attach(id, failing, names).outcome.stage == PdfExists
    ensures Attach(id, failing, names).outcome.Aborted? ==>
      Attach(id, failing, names).outcome.stage in {ClickRow, WaitUploadInput, SendFile, ClickAdvance, WaitFilterAgain, JsClearFilterAgain} &&
      Attach(id, failing, names).outcome.stage in failing
  {
  }

  /** Which failures skip a record and which end the run: a skip happens only
      at the id cell or the missing PDF; every abort but a missing id is a
      failed interaction, and never the label, the first clear or Guardar. */
  lemma SkipAndAbortStages(reg: Record, failing: set<Step>, names: set<string>)
    ensures UploadRecord(reg, failing, names).outcome.Skipped? ==>
      UploadRecord(reg, failing, names).outcome.stage in {FindIdCell, PdfExists}
    ensures UploadRecord(reg, failing, names).outcome.Aborted? ==>
      UploadRecord(reg, failing, names).outcome.stage in
        {ReadRecord, WaitFilter, JsClearFilter, TypeFilter, ClickRow, WaitUploadInput,
         SendFile, ClickAdvance, WaitFilterAgain, JsClearFilterAgain}
    ensures UploadRecord(reg, failing, names).outcome.Aborted? && UploadRecord(reg, failing, names).outcome.stage != ReadRecord ==>
      UploadRecord(reg, failing, names).outcome.stage in failing
  {
    if IdKey in reg {
      PreludeStops(reg[IdKey], failing);
      AttachStops(reg[IdKey], failing, names);
    }
  }

  /** A failed Avanzar, once the file was sent, ends the run. */
  lemma AdvanceFailureAborts(reg: Record, failing: set<Step>, names: set<string>)
    requires IdKey in reg && Prelude(reg[IdKey], failing).stop.None? && FindIdCell !in failing
    requires OpenRow(failing).stop.None? && PdfName(reg[IdKey]) in names
    requires SendFile !in failing && ClickAdvance in failing
    ensures UploadRecord(reg, failing, names).outcome == Aborted(ClickAdvance)
  {
  }

  /** A filter field that never becomes visible, or a row that cannot be clicked, ends the run. */
  lemma FilterOrRowFailureAborts(reg: Record, failing: set<Step>, names: set<string>)
    requires IdKey in reg
    ensures WaitFilter in failing ==> UploadRecord(reg, failing, names).outcome == Aborted(WaitFilter)
    ensures Prelude(reg[IdKey], failing).stop.None? && FindIdCell !in failing && ClickRow in failing ==>
      UploadRecord(reg, failing, names).outcome == Aborted(ClickRow)
  {
  }


  // ---------------------------------------------------------------------------
  // The loop over the records.

  /** What the loop does with one record. */
  type Body = (Record, set<Step>, set<string>) -> UploadResult

  /** The records processed so far and, once one failed, the stage that ended the run. */
  datatype Log = Log(actions: seq<Action>, outcomes: seq<Upload>, aborted: Option<Step>)

  function Extend(prev: Log, r: UploadResult): Log {
    Log(prev.actions + r.actions, prev.outcomes + [r.outcome], if r.outcome.Aborted? then Some(r.outcome.stage) else None)
  }

  /** The `for reg in lista_resultados` loop over the first |regs| records. */
  function Queue(body: Body, regs: seq<Record>, fails: seq<set<Step>>, names: set<string>): Log
    requires |fails| == |regs|
    decreases |regs|
  {
    if regs == [] then Log([], [], None)
    else
      var n := |regs| - 1;
      var prev := Queue(body, regs[..n], fails[..n], names);
      if prev.aborted.Some? then prev else Extend(prev, body(regs[n], fails[n], names))
  }

  /** Login and the requests page, unguarded. */
  function Setup(failing: set<Step>): Progress {
    Chain(Do(SigoLogin, "", failing), Do(OpenRequests, "", failing))
  }

  function Run(setupFailing: set<Step>, regs: seq<Record>, fails: seq<set<Step>>, names: set<string>): Log
    requires |fails| == |regs|
  {
    var st := Setup(setupFailing);
    if st.stop.Some? then Log(st.actions, [], st.stop)
    else
      var q := Queue(UploadRecord, regs, fails, names);
      Log(st.actions + q.actions, q.outcomes, q.aborted)
  }

  lemma QueueUnfold(body: Body, regs: seq<Record>, fails: seq<set<Step>>, names: set<string>)
    requires |fails| == |regs| && regs != []
    ensures var n := |regs| - 1;
      var prev := Queue(body, regs[..n], fails[..n], names);
      Queue(body, regs, fails, names) == if prev.aborted.Some? then prev else Extend(prev, body(regs[n], fails[n], names))
  {
  }

  /** The run goes on while no record aborts: every outcome but the last is
      uploaded or skipped, the run was aborted exactly when the last one was,
      and when nothing aborted every record got an outcome. */
  predicate StopsAtFirstAbort(q: Log, count: nat) {
    |q.outcomes| <= count &&
    (forall k :: 0 <= k < |q.outcomes| - 1 ==> !q.outcomes[k].Aborted?) &&
    (q.aborted.None? <==> |q.outcomes| == count && forall k :: 0 <= k < |q.outcomes| ==> !q.outcomes[k].Aborted?) &&
    (q.aborted.Some? ==> |q.outcomes| > 0 && q.outcomes[|q.outcomes| - 1] == Aborted(q.aborted.value))
  }

  lemma ExtendStops(prev: Log, r: UploadResult, count: nat)
    requires StopsAtFirstAbort(prev, count) && prev.aborted.None?
    ensures StopsAtFirstAbort(Extend(prev, r), count + 1)
  {
    var q := Extend(prev, r);
    assert q.outcomes == prev.outcomes + [r.outcome];
    assert forall k :: 0 <= k < |prev.outcomes| ==> q.outcomes[k] == prev.outcomes[k];
    assert q.outcomes[|prev.outcomes|] == r.outcome;
  }

  lemma {:induction false} QueueStopsAtFirstAbort(body: Body, regs: seq<Record>, fails: seq<set<Step>>, names: set<string>)
    requires |fails| == |regs|
    ensures StopsAtFirstAbort(Queue(body, regs, fails, names), |regs|)
    decreases |regs|
  {
    if regs != [] {
      var n := |regs| - 1;
      var prev := Queue(body, regs[..n], fails[..n], names);
      QueueStopsAtFirstAbort(body, regs[..n], fails[..n], names);
      QueueUnfold(body, regs, fails, names);
      if prev.aborted.None? {
        ExtendStops(prev, body(regs[n], fails[n], names), n);
      }
    }
  }

  /** Records are processed in JSON order: outcome `i` is what the loop body
      makes of record `i`; a skip goes on to the next record, an abort ends the run. */
  lemma {:induction false} QueueOutcomeAt(body: Body, regs: seq<Record>, fails: seq<set<Step>>, names: set<string>, i: nat)
    requires |fails| == |regs| && i < |regs| && i < |Queue(body, regs, fails, names).outcomes|
    ensures Queue(body, regs, fails, names).outcomes[i] == body(regs[i], fails[i], names).outcome
    ensures Queue(body, regs, fails, names).outcomes[i].Aborted? ==> |Queue(body, regs, fails, names).outcomes| == i + 1
    decreases |regs|
  {
    var n := |regs| - 1;
    var prev := Queue(body, regs[..n], fails[..n], names);
    QueueStopsAtFirstAbort(body, regs[..n], fails[..n], names);
    QueueStopsAtFirstAbort(body, regs, fails, names);
    QueueUnfold(body, regs, fails, names);
    assert |prev.outcomes| <= n;
    if prev.aborted.Some? || i < n {
      QueueOutcomeAt(body, regs[..n], fails[..n], names, i);
      assert regs[..n][i] == regs[i] && fails[..n][i] == fails[i];
      if prev.aborted.None? {
        var q := Extend(prev, body(regs[n], fails[n], names));
        assert q.outcomes[i] == prev.outcomes[i];
      }
    } else {
      var q := Extend(prev, body(regs[n], fails[n], names));
      assert q.outcomes[n] == body(regs[n], fails[n], names).outcome;
    }
  }

  lemma {:induction false} AbortedQueueStays(body: Body, regs: seq<Record>, fails: seq<set<Step>>, names: set<string>, i: nat)
    requires |fails| == |regs| && i <= |regs| && Queue(body, regs[..i], fails[..i], names).aborted.Some?
    ensures Queue(body, regs, fails, names) == Queue(body, regs[..i], fails[..i], names)
    decreases |regs| - i
  {
    if i < |regs| {
      assert regs[..i + 1][..i] == regs[..i] && fails[..i + 1][..i] == fails[..i];
      AbortedQueueStays(body, regs, fails, names, i + 1);
    } else {
      assert regs[..i] == regs && fails[..i] == fails;
    }
  }

  // ---------------------------------------------------------------------------
  // The script.

  /** The filter input of the requests table, cleared and refilled in place. */
  class FilterInput {
    var value: string

    constructor (initial: string)
      ensures value == initial
    {
      value := initial;
    }
  }

  /** Clears the filter by `clear()`, or by setting its value by JavaScript when that fails. */
  method ClearField(s: Session, field: FilterInput, step: Step, fallback: Step, failing: set<Step>) returns (ok: bool)
    requires Clears(step) && Clears(fallback)
    modifies s`trace, field`value
    ensures s.trace == old(s.trace) + Retry(step, fallback, failing).actions
    ensures ok == Retry(step, fallback, failing).stop.None?
    ensures field.value == FilterValue(Retry(step, fallback, failing).actions, failing, old(field.value))
  {
    RetryFilter(step, fallback, failing, field.value);
    ok := s.Perform(step, "", failing);
    if !ok {
      ok := s.Perform(fallback, "", failing);
    }
    if ok {
      field.value := "";
    }
  }

  /** Step 0. */
  method Reveal(s: Session, failing: set<Step>)
    modifies s`trace
    ensures s.trace == old(s.trace) + RevealFilter(failing)
  {
    var found := s.Perform(FindFilter, "", failing);
    if !found {
      return;
    }
    var shown := s.Perform(FilterDisplayed, "", failing);
    if shown {
      return;
    }
    var clicked := s.Perform(ClickFilterLabel, "", failing);
    if !clicked {
      var _ := s.Perform(ForceFilterLabel, "", failing);
    }
  }

  /** Step 1. */
  method TypeId(s: Session, field: FilterInput, id: string, failing: set<Step>) returns (stop: Option<Step>)
    modifies s`trace, field`value
    ensures s.trace == old(s.trace) + EnterId(id, failing).actions
    ensures stop == EnterId(id, failing).stop
    ensures field.value == FilterValue(EnterId(id, failing).actions, failing, old(field.value))
  {
    EnterIdFilter(id, failing, field.value);
    RetryFilter(ClearFilter, JsClearFilter, failing, field.value);
    var ok := s.Perform(WaitFilter, "", failing);
    if !ok {
      return Some(WaitFilter);
    }
    ok := ClearField(s, field, ClearFilter, JsClearFilter, failing);
    if !ok {
      return Some(JsClearFilter);
    }
    ok := s.Perform(TypeFilter, id, failing);
    if !ok {
      return Some(TypeFilter);
    }
    field.value := field.value + id;
    return None;
  }

  /** Steps 3 to 6 once the file exists. */
  method SendAndAdvance(s: Session, field: FilterInput, id: string, failing: set<Step>) returns (stop: Option<Step>, saved: bool)
    modifies s`trace, field`value
    ensures s.trace == old(s.trace) + Submit(id, failing).actions
    ensures stop == Submit(id, failing).stop
    ensures stop.None? ==> saved == (ClickSave !in failing)
    ensures field.value == FilterValue(Submit(id, failing).actions, failing, old(field.value))
  {
    SubmitFilter(id, failing, field.value);
    RetryFilter(ClearFilterAgain, JsClearFilterAgain, failing, field.value);
    saved := false;
    var ok := s.Perform(SendFile, FilePath(id), failing);
    if !ok {
      return Some(SendFile), saved;
    }
    saved := s.Perform(ClickSave, "", failing);
    ok := s.Perform(ClickAdvance, "", failing);
    if !ok {
      return Some(ClickAdvance), saved;
    }
    ok := s.Perform(WaitFilterAgain, "", failing);
    if !ok {
      return Some(WaitFilterAgain), saved;
    }
    ok := ClearField(s, field, ClearFilterAgain, JsClearFilterAgain, failing);
    if !ok {
      return Some(JsClearFilterAgain), saved;
    }
    return None, saved;
  }

  /** Steps 2.1 and 3. */
  method OpenRequestRow(s: Session, failing: set<Step>) returns (stop: Option<Step>)
    modifies s`trace
    ensures s.trace == old(s.trace) + OpenRow(failing).actions
    ensures stop == OpenRow(failing).stop
  {
    var ok := s.Perform(ClickRow, "", failing);
    if !ok {
      return Some(ClickRow);
    }
    ok := s.Perform(WaitUploadInput, "", failing);
    if !ok {
      return Some(WaitUploadInput);
    }
    return None;
  }

  /** Steps 2.1 to 6, once the id cell is on screen. */
  method AttachFile(s: Session, field: FilterInput, folder: Folder, id: string, failing: set<Step>) returns (outcome: Upload)
    modifies s`trace, field`value
    ensures s.trace == old(s.trace) + Attach(id, failing, folder.names).actions
    ensures outcome == Attach(id, failing, folder.names).outcome
    ensures field.value == FilterValue(Attach(id, failing, folder.names).actions, failing, old(field.value))
  {
    ghost var t0 := s.trace;
    AttachFilter(id, failing, folder.names, field.value);
    SubmitFilter(id, failing, field.value);
    var stop := OpenRequestRow(s, failing);
    if stop.Some? {
      return Aborted(stop.value);
    }
    if PdfName(id) !in folder.names {
      return Skipped(PdfExists);
    }
    var saved;
    stop, saved := SendAndAdvance(s, field, id, failing);
    AppendAssoc(t0, OpenRow(failing).actions, Submit(id, failing).actions);
    if stop.Some? {
      return Aborted(stop.value);
    }
    return Uploaded(saved);
  }

  /** Steps 0 and 1. */
  method EnterFilter(s: Session, field: FilterInput, id: string, failing: set<Step>) returns (stop: Option<Step>)
    modifies s`trace, field`value
    ensures s.trace == old(s.trace) + Prelude(id, failing).actions
    ensures stop == Prelude(id, failing).stop
    ensures field.value == FilterValue(Prelude(id, failing).actions, failing, old(field.value))
  {
    ghost var t0, v0 := s.trace, field.value;
    assert Prelude(id, failing).actions == RevealFilter(failing) + EnterId(id, failing).actions;
    Reveal(s, failing);
    RevealKeepsFilter(failing, v0);
    FilterValueAppend(RevealFilter(failing), EnterId(id, failing).actions, failing, v0);
    stop := TypeId(s, field, id, failing);
    AppendAssoc(t0, RevealFilter(failing), EnterId(id, failing).actions);
  }

  /** Steps 2 to 6. */
  method FindAndAttach(s: Session, field: FilterInput, folder: Folder, id: string, failing: set<Step>) returns (outcome: Upload)
    modifies s`trace, field`value
    ensures s.trace == old(s.trace) + Row(id, failing, folder.names).actions
    ensures outcome == Row(id, failing, folder.names).outcome
    ensures field.value == FilterValue(Row(id, failing, folder.names).actions, failing, old(field.value))
  {
    ghost var t0 := s.trace;
    RowFilter(id, failing, folder.names, field.value);
    AttachFilter(id, failing, folder.names, field.value);
    var ok := s.Perform(FindIdCell, CellXPath(id), failing);
    if !ok {
      return Skipped(FindIdCell);
    }
    outcome := AttachFile(s, field, folder, id, failing);
    AppendAssoc(t0, [Action(FindIdCell, CellXPath(id))], Attach(id, failing, folder.names).actions);
  }

  /** One pass of the loop body. */
  method ProcessRecord(s: Session, field: FilterInput, folder: Folder, reg: Record, failing: set<Step>) returns (outcome: Upload)
    modifies s`trace, field`value
    ensures s.trace == old(s.trace) + UploadRecord(reg, failing, folder.names).actions
    ensures outcome == UploadRecord(reg, failing, folder.names).outcome
    ensures field.value == FilterValue(UploadRecord(reg, failing, folder.names).actions, failing, old(field.value))
  {
    if IdKey !in reg {
      return Aborted(ReadRecord);
    }
    var id := reg[IdKey];
    ghost var t0, v0 := s.trace, field.value;
    var stop := EnterFilter(s, field, id, failing);
    if stop.Some? {
      return Aborted(stop.value);
    }
    ghost var pre := Prelude(id, failing).actions;
    ghost var row := Row(id, failing, folder.names);
    FilterValueAppend(pre, row.actions, failing, v0);
    outcome := FindAndAttach(s, field, folder, id, failing);
    AppendAssoc(t0, pre, row.actions);
  }

  /** The `for reg in lista_resultados` loop: skipped records go on to the next one; an abort leaves the loop. */
  method ProcessQueue(s: Session, field: FilterInput, folder: Folder, regs: seq<Record>, fails: seq<set<Step>>)
    returns (outcomes: seq<Upload>, aborted: Option<Step>)
    requires |fails| == |regs|
    modifies s`trace, field`value
    ensures s.trace == old(s.trace) + Queue(UploadRecord, regs, fails, folder.names).actions
    ensures outcomes == Queue(UploadRecord, regs, fails, folder.names).outcomes
    ensures aborted == Queue(UploadRecord, regs, fails, folder.names).aborted
  {
    ghost var t0, names := s.trace, folder.names;
    outcomes, aborted := [], None;
    var i := 0;
    ghost var log := Queue(UploadRecord, [], [], names);
    while i < |regs|
      invariant 0 <= i <= |regs|
      invariant log == Queue(UploadRecord, regs[..i], fails[..i], names) && log.aborted.None?
      invariant s.trace == t0 + log.actions
      invariant outcomes == log.outcomes
    {
      ghost var r := UploadRecord(regs[i], fails[i], names);
      assert regs[..i + 1][..i] == regs[..i] && fails[..i + 1][..i] == fails[..i];
      var o := ProcessRecord(s, field, folder, regs[i], fails[i]);
      AppendAssoc(t0, log.actions, r.actions);
      outcomes := outcomes + [o];
      log := Extend(log, r);
      i := i + 1;
      if o.Aborted? {
        AbortedQueueStays(UploadRecord, regs, fails, names, i);
        aborted := Some(o.stage);
        return;
      }
    }
    assert regs[..i] == regs && fails[..i] == fails;
  }

  /** Login and the requests page. */
  method OpenRequestsPage(s: Session, setupFailing: set<Step>) returns (stop: Option<Step>)
    modifies s`trace
    ensures s.trace == old(s.trace) + Setup(setupFailing).actions
    ensures stop == Setup(setupFailing).stop
  {
    var ok := s.Perform(SigoLogin, "", setupFailing);
    if !ok {
      return Some(SigoLogin);
    }
    ok := s.Perform(OpenRequests, "", setupFailing);
    if !ok {
      return Some(OpenRequests);
    }
    return None;
  }

  /** `main`: login, the requests page, the loop; the driver is quit exactly once, whatever happens. */
  method RunSession(s: Session, field: FilterInput, folder: Folder, setupFailing: set<Step>, regs: seq<Record>, fails: seq<set<Step>>)
    returns (outcomes: seq<Upload>, aborted: Option<Step>)
    requires |fails| == |regs|
    modifies s`trace, s`quits, field`value
    ensures s.trace == old(s.trace) + Run(setupFailing, regs, fails, folder.names).actions
    ensures outcomes == Run(setupFailing, regs, fails, folder.names).outcomes
    ensures aborted == Run(setupFailing, regs, fails, folder.names).aborted
    ensures s.quits == old(s.quits) + 1
  {
    ghost var t0 := s.trace;
    outcomes := [];
    aborted := OpenRequestsPage(s, setupFailing);
    if aborted.None? {
      outcomes, aborted := ProcessQueue(s, field, folder, regs, fails);
      AppendAssoc(t0, Setup(setupFailing).actions, Queue(UploadRecord, regs, fails, folder.names).actions);
    }
    s.Quit();
  }
}
