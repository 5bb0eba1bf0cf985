/** One record of a Previred submission queue, up to the stored PDF: the
    steps both submission scripts perform in the same order (RUT, health
    system, cause of movement, end date through the datepicker, Continuar with
    one JavaScript retry, declaration, Continuar, Imprimir) and the rename of
    the downloaded form. The two scripts differ only in what a failure means
    for the rest of the run, which their own modules state. */
module Submission {
  import opened Wrappers
  import opened Text
  import opened Calendar
  import opened DatePicker
  import opened Browser
  import opened Downloads

  /** Session setup, the same in both scripts: login, the company, Movimiento de
      Personal Retroactivo, and Ingreso Manual opened the first time. */
  function Setup(failing: set<Step>): Progress {
    Chain(Do(Login, "", failing), Chain(Do(SelectCompany, "", failing), Chain(Do(OpenMovement, "", failing), Do(OpenManualEntry, "", failing))))
  }

  lemma SetupOrdered(f: set<Step>)
    ensures Ascending(Setup(f).actions) && Within(Setup(f).actions, 0, 4)
  {
    DoOrdered(Login, "", f);
    DoOrdered(SelectCompany, "", f);
    DoOrdered(OpenMovement, "", f);
    DoOrdered(OpenManualEntry, "", f);
    ChainOrdered(Do(OpenMovement, "", f), Do(OpenManualEntry, "", f), 2, 3, 4);
    ChainOrdered(Do(SelectCompany, "", f), Chain(Do(OpenMovement, "", f), Do(OpenManualEntry, "", f)), 1, 2, 4);
    ChainOrdered(Do(Login, "", f), Chain(Do(SelectCompany, "", f), Chain(Do(OpenMovement, "", f), Do(OpenManualEntry, "", f))), 0, 1, 4);
  }

  /** A queue entry as loaded from JSON. */
  type Record = map<string, string>

  const IdKey := "id"
  const RutKey := "rut"
  const DateKey := "fecha_ultimo_dia"
  const NoId := "NOID"
  const Fonasa := "FONASA"
  const Retirement := "Retiro (Cese trabajador)"

  /** What the environment does while one record is processed: which
      interactions fail, and whether the portal's PDF reaches the download
      folder after a successful Imprimir. */
  datatype Env = Env(failing: set<Step>, delivered: bool)

  /** `reg.get("id", "NOID")` */
  function FolioId(reg: Record): string {
    if IdKey in reg then reg[IdKey] else NoId
  }

  /** RUT (dots removed), FONASA, Retiro, and the click that opens the datepicker. */
  function FormEntry(rut: string, failing: set<Step>): Progress {
    Chain(Do(EnterRut, StripDots(rut), failing),
    Chain(Do(SelectHealth, Fonasa, failing),
    Chain(Do(SelectMovement, Retirement, failing),
          Do(OpenDateField, "", failing))))
  }

  /** `seleccionar_fecha_jquery_ui`: the date is parsed before any widget is touched. */
  function DateSelection(fecha: string, failing: set<Step>): Progress {
    match ParseDate(fecha)
    case None => Halt(ParseDueDate)
    case Some(d) =>
      var w := Decompose(d);
      Chain(Do(SelectYear, YearOption(w), failing),
      Chain(Do(SelectMonth, MonthOption(w), failing),
            Do(ClickDay, DayCellXPath(w), failing)))
  }

  /** First Continuar (a failed click is retried once by JavaScript), declaration, second Continuar, Imprimir. */
  function Confirmation(failing: set<Step>): Progress {
    Chain(Do(FocusContinue, "", failing),
    Chain(Retry(ClickContinue, JsClickContinue, failing), Declaration(failing)))
  }

  /** The declaration checkbox, the second Continuar and Imprimir. */
  function Declaration(failing: set<Step>): Progress {
    Chain(Do(CheckDeclaration, "", failing),
    Chain(Do(SecondContinue, "", failing),
          Do(ClickPrint, "", failing)))
  }

  /** The form of one record; a record without a RUT or an end date ends before any interaction. */
  function Form(reg: Record, failing: set<Step>): Progress {
    if RutKey !in reg || DateKey !in reg then Halt(ReadRecord)
    else Chain(FormEntry(reg[RutKey], failing), Chain(DateSelection(reg[DateKey], failing), Confirmation(failing)))
  }

  /** The rename step and the folder it leaves. */
  datatype Renaming = Renaming(progress: Progress, names: set<string>, renamed: bool)

  /** `CtrlPdf.pdf` becomes `{id}.pdf` when it exists; when it does not, only a warning is logged. */
  function Rename(id: string, names: set<string>, failing: set<Step>): Renaming {
    if Downloaded !in names then Renaming(Done, names, false)
    else if RenamePdf in failing then Renaming(Do(RenamePdf, PdfName(id), failing), names, false)
    else Renaming(Do(RenamePdf, PdfName(id), failing), names - {Downloaded} + {PdfName(id)}, true)
  }

  /** The folder once Imprimir has had its effect. */
  function Printed(names: set<string>, env: Env, form: Progress): set<string> {
    if form.stop.None? && env.delivered then names + {Downloaded} else names
  }

  /** A record from its first step to its stored PDF. */
  function Download(reg: Record, env: Env, names: set<string>): Renaming {
    var form := Form(reg, env.failing);
    if form.stop.Some? then Renaming(form, names, false)
    else
      var rn := Rename(FolioId(reg), Printed(names, env, form), env.failing);
      Renaming(Chain(form, rn.progress), rn.names, rn.renamed)
  }

  /** How a record ended: processed to the end (whether its PDF was renamed and
      whether Ingreso Manual was reached again), or stopped at a stage. */
  datatype Outcome = Completed(renamed: bool, reentered: bool) | Failed(stage: Step)

  /** The interactions of one record, its outcome and the folder it leaves. */
  datatype RecordResult = RecordResult(actions: seq<Action>, outcome: Outcome, names: set<string>)

  lemma FormEntryOrdered(rut: string, f: set<Step>)
    ensures Ascending(FormEntry(rut, f).actions) && Within(FormEntry(rut, f).actions, 5, 9)
  {
    ChainOrdered(Do(SelectMovement, Retirement, f), Do(OpenDateField, "", f), 7, 8, 9);
    ChainOrdered(Do(SelectHealth, Fonasa, f), Chain(Do(SelectMovement, Retirement, f), Do(OpenDateField, "", f)), 6, 7, 9);
    ChainOrdered(Do(EnterRut, StripDots(rut), f), Chain(Do(SelectHealth, Fonasa, f), Chain(Do(SelectMovement, Retirement, f), Do(OpenDateField, "", f))), 5, 6, 9);
  }

  lemma PickerOrdered(w: Selection, f: set<Step>)
    ensures var p := Chain(Do(SelectYear, YearOption(w), f), Chain(Do(SelectMonth, MonthOption(w), f), Do(ClickDay, DayCellXPath(w), f)));
      Ascending(p.actions) && Within(p.actions, 9, 13)
  {
    DoOrdered(SelectYear, YearOption(w), f);
    DoOrdered(SelectMonth, MonthOption(w), f);
    DoOrdered(ClickDay, DayCellXPath(w), f);
    ChainOrdered(Do(SelectMonth, MonthOption(w), f), Do(ClickDay, DayCellXPath(w), f), 11, 12, 13);
    ChainOrdered(Do(SelectYear, YearOption(w), f), Chain(Do(SelectMonth, MonthOption(w), f), Do(ClickDay, DayCellXPath(w), f)), 9, 11, 13);
  }

  lemma DateSelectionOrdered(fecha: string, f: set<Step>)
    ensures Ascending(DateSelection(fecha, f).actions) && Within(DateSelection(fecha, f).actions, 9, 13)
  {
    match ParseDate(fecha)
    case None =>
    case Some(d) => PickerOrdered(Decompose(d), f);
  }

  lemma PrintOrdered(f: set<Step>)
    ensures var p := Chain(Do(CheckDeclaration, "", f), Chain(Do(SecondContinue, "", f), Do(ClickPrint, "", f)));
      Ascending(p.actions) && Within(p.actions, 16, 19)
  {
    DoOrdered(CheckDeclaration, "", f);
    DoOrdered(SecondContinue, "", f);
    DoOrdered(ClickPrint, "", f);
    ChainOrdered(Do(SecondContinue, "", f), Do(ClickPrint, "", f), 17, 18, 19);
    ChainOrdered(Do(CheckDeclaration, "", f), Chain(Do(SecondContinue, "", f), Do(ClickPrint, "", f)), 16, 17, 19);
  }

  lemma ConfirmationOrdered(f: set<Step>)
    ensures Ascending(Confirmation(f).actions) && Within(Confirmation(f).actions, 13, 19)
  {
    var p := Retry(ClickContinue, JsClickContinue, f);
    var tail := Chain(Do(CheckDeclaration, "", f), Chain(Do(SecondContinue, "", f), Do(ClickPrint, "", f)));
    RetryOrdered(ClickContinue, JsClickContinue, f);
    DoOrdered(FocusContinue, "", f);
    PrintOrdered(f);
    assert Ascending(p.actions) && Within(p.actions, 14, 16);
    assert Ascending(tail.actions) && Within(tail.actions, 16, 19);
    ChainOrdered(p, tail, 14, 16, 19);
    assert Ascending(Chain(p, tail).actions);
    ChainOrdered(Do(FocusContinue, "", f), Chain(p, tail), 13, 14, 19);
  }

  lemma FormOrdered(reg: Record, f: set<Step>)
    ensures Ascending(Form(reg, f).actions) && Within(Form(reg, f).actions, 5, 19)
  {
    if RutKey in reg && DateKey in reg {
      var rut, fecha := reg[RutKey], reg[DateKey];
      var entry, date, confirm := FormEntry(rut, f), DateSelection(fecha, f), Confirmation(f);
      FormEntryOrdered(rut, f);
      DateSelectionOrdered(fecha, f);
      ConfirmationOrdered(f);
      ChainOrdered(date, confirm, 9, 13, 19);
      ChainOrdered(entry, Chain(date, confirm), 5, 9, 19);
      assert Form(reg, f) == Chain(entry, Chain(date, confirm));
    }
  }

  /** The interactions of a record come in their fixed order, each at most once, from the RUT to the rename. */
  lemma DownloadOrdered(reg: Record, env: Env, names: set<string>)
    ensures Ascending(Download(reg, env, names).progress.actions)
    ensures Within(Download(reg, env, names).progress.actions, 5, 20)
  {
    var f := env.failing;
    var form := Form(reg, f);
    FormOrdered(reg, f);
    if form.stop.None? {
      var rn := Rename(FolioId(reg), Printed(names, env, form), f);
      DoOrdered(RenamePdf, PdfName(FolioId(reg)), f);
      assert Ascending(rn.progress.actions) && Within(rn.progress.actions, 19, 20);
      ChainOrdered(form, rn.progress, 5, 19, 20);
      assert Download(reg, env, names).progress == Chain(form, rn.progress);
    }
  }

  lemma FormEntryStopsAtFirstFailure(rut: string, f: set<Step>, t: set<Step>)
    ensures StopsAtFirstFailure(FormEntry(rut, f), f, t)
  {
    DoStopsAtFirstFailure(EnterRut, StripDots(rut), f, t);
    DoStopsAtFirstFailure(SelectHealth, Fonasa, f, t);
    DoStopsAtFirstFailure(SelectMovement, Retirement, f, t);
    DoStopsAtFirstFailure(OpenDateField, "", f, t);
    ChainStopsAtFirstFailure(Do(SelectMovement, Retirement, f), Do(OpenDateField, "", f), f, t);
    ChainStopsAtFirstFailure(Do(SelectHealth, Fonasa, f), Chain(Do(SelectMovement, Retirement, f), Do(OpenDateField, "", f)), f, t);
    ChainStopsAtFirstFailure(Do(EnterRut, StripDots(rut), f), Chain(Do(SelectHealth, Fonasa, f), Chain(Do(SelectMovement, Retirement, f), Do(OpenDateField, "", f))), f, t);
  }

  lemma DateSelectionStopsAtFirstFailure(fecha: string, f: set<Step>, t: set<Step>)
    ensures StopsAtFirstFailure(DateSelection(fecha, f), f, t)
  {
    match ParseDate(fecha)
    case None =>
    case Some(d) =>
      var w := Decompose(d);
      DoStopsAtFirstFailure(SelectYear, YearOption(w), f, t);
      DoStopsAtFirstFailure(SelectMonth, MonthOption(w), f, t);
      DoStopsAtFirstFailure(ClickDay, DayCellXPath(w), f, t);
      ChainStopsAtFirstFailure(Do(SelectMonth, MonthOption(w), f), Do(ClickDay, DayCellXPath(w), f), f, t);
      ChainStopsAtFirstFailure(Do(SelectYear, YearOption(w), f), Chain(Do(SelectMonth, MonthOption(w), f), Do(ClickDay, DayCellXPath(w), f)), f, t);
  }

  lemma ConfirmationStopsAtFirstFailure(f: set<Step>, t: set<Step>)
    requires ClickContinue in t
    ensures StopsAtFirstFailure(Confirmation(f), f, t)
  {
    DoStopsAtFirstFailure(FocusContinue, "", f, t);
    RetryStopsAtFirstFailure(ClickContinue, JsClickContinue, f, t);
    DoStopsAtFirstFailure(CheckDeclaration, "", f, t);
    DoStopsAtFirstFailure(SecondContinue, "", f, t);
    DoStopsAtFirstFailure(ClickPrint, "", f, t);
    ChainStopsAtFirstFailure(Do(SecondContinue, "", f), Do(ClickPrint, "", f), f, t);
    var tail := Chain(Do(CheckDeclaration, "", f), Chain(Do(SecondContinue, "", f), Do(ClickPrint, "", f)));
    ChainStopsAtFirstFailure(Do(CheckDeclaration, "", f), Chain(Do(SecondContinue, "", f), Do(ClickPrint, "", f)), f, t);
    ChainStopsAtFirstFailure(Retry(ClickContinue, JsClickContinue, f), tail, f, t);
    ChainStopsAtFirstFailure(Do(FocusContinue, "", f), Chain(Retry(ClickContinue, JsClickContinue, f), tail), f, t);
  }

  /** Failures are not isolated within a record: the first interaction that
      fails ends it, except the first Continuar, whose failed click is
      retried by JavaScript. */
  lemma DownloadStopsAtFirstFailure(reg: Record, env: Env, names: set<string>)
    ensures StopsAtFirstFailure(Download(reg, env, names).progress, env.failing, {ClickContinue})
  {
    var f, t := env.failing, {ClickContinue};
    if RutKey in reg && DateKey in reg {
      var rut, fecha := reg[RutKey], reg[DateKey];
      FormEntryStopsAtFirstFailure(rut, f, t);
      DateSelectionStopsAtFirstFailure(fecha, f, t);
      ConfirmationStopsAtFirstFailure(f, t);
      ChainStopsAtFirstFailure(DateSelection(fecha, f), Confirmation(f), f, t);
      ChainStopsAtFirstFailure(FormEntry(rut, f), Chain(DateSelection(fecha, f), Confirmation(f)), f, t);
      var form := Form(reg, f);
      if form.stop.None? {
        var rn := Rename(FolioId(reg), Printed(names, env, form), f);
        DoStopsAtFirstFailure(RenamePdf, PdfName(FolioId(reg)), f, t);
        assert StopsAtFirstFailure(Done, f, t);
        ChainStopsAtFirstFailure(form, rn.progress, f, t);
      }
    }
  }

  /** A record without a RUT or an end date ends before any interaction and leaves the folder as it was. */
  lemma MissingFieldEndsBeforeInteraction(reg: Record, env: Env, names: set<string>)
    requires RutKey !in reg || DateKey !in reg
    ensures Download(reg, env, names) == Renaming(Progress([], Some(ReadRecord)), names, false)
  {
  }

  /** The first interaction types the record's RUT with its dots removed. */
  lemma RutTypedWithoutDots(reg: Record, failing: set<Step>)
    requires RutKey in reg && DateKey in reg
    ensures |Form(reg, failing).actions| >= 1
    ensures Form(reg, failing).actions[0] == Action(EnterRut, StripDots(reg[RutKey]))
    ensures '.' !in Form(reg, failing).actions[0].arg
  {
    var entry := FormEntry(reg[RutKey], failing);
    assert entry.actions[0] == Action(EnterRut, StripDots(reg[RutKey]));
    StripDotsRemovesDots(reg[RutKey]);
  }

  /** The run did not end at a halt stage (a missing key, a date that does not parse). */
  predicate NoHalt(p: Progress) {
    p.stop.None? || !IsHaltStage(p.stop.value)
  }

  lemma ChainNoHalt(p: Progress, q: Progress)
    requires NoHalt(p) && NoHalt(q)
    ensures NoHalt(Chain(p, q))
  {
  }

  /** A record whose end date parses never halts: a failure is always a failed interaction. */
  lemma ParsableDateNeverHalts(reg: Record, f: set<Step>)
    requires RutKey in reg && DateKey in reg && ParseDate(reg[DateKey]).Some?
    ensures NoHalt(Form(reg, f))
    ensures FormEntry(reg[RutKey], f).stop.None? ==> Ran(Form(reg, f).actions, SelectYear)
  {
    var entry, date, confirm := FormEntry(reg[RutKey], f), DateSelection(reg[DateKey], f), Confirmation(f);
    assert NoHalt(entry) && NoHalt(date) && NoHalt(confirm);
    ChainNoHalt(date, confirm);
    ChainNoHalt(entry, Chain(date, confirm));
    assert Form(reg, f) == Chain(entry, Chain(date, confirm));
    if entry.stop.None? {
      ChainFacts(date, confirm);
      ChainFacts(entry, Chain(date, confirm));
      assert StepsOf(date.actions)[0] == SelectYear;
    }
  }

  /** An end date that does not parse ends the record right after the
      date field is opened: no select of the datepicker is touched and nothing later runs. */
  lemma UnparsableDateTouchesNoWidget(reg: Record, failing: set<Step>)
    requires RutKey in reg && DateKey in reg && ParseDate(reg[DateKey]).None?
    ensures Form(reg, failing).stop.Some?
    ensures Form(reg, failing).actions == FormEntry(reg[RutKey], failing).actions
    ensures FormEntry(reg[RutKey], failing).stop.None? ==> Form(reg, failing).stop == Some(ParseDueDate)
    ensures !Ran(Form(reg, failing).actions, SelectYear) && !Ran(Form(reg, failing).actions, ClickPrint)
  {
    FormEntryOrdered(reg[RutKey], failing);
    NotRanOutside(FormEntry(reg[RutKey], failing).actions, 5, 9, SelectYear);
    NotRanOutside(FormEntry(reg[RutKey], failing).actions, 5, 9, ClickPrint);
  }

  /** The datepicker's three interactions, in order, for a date that parses. */
  lemma DateSelectionArguments(fecha: string, failing: set<Step>, d: Date)
    requires ParseDate(fecha) == Some(d)
    ensures 1 <= d.month <= 12
    ensures var a := DateSelection(fecha, failing).actions;
      |a| >= 1 && a[0] == Action(SelectYear, NatToString(d.year)) &&
      (SelectYear !in failing ==> |a| >= 2 && a[1] == Action(SelectMonth, NatToString(d.month - 1))) &&
      (SelectYear !in failing && SelectMonth !in failing ==>
        |a| >= 3 && a[2] == Action(ClickDay, DayCellXPath(Selection(d.day, d.month - 1, d.year))))
  {
    var w := Decompose(d);
    assert w == Selection(d.day, d.month - 1, d.year);
  }

  /** With a date that parses, the datepicker receives the year, the month
      counted from zero, and the day cell of that date. */
  lemma DatePickerArguments(reg: Record, failing: set<Step>, d: Date)
    requires RutKey in reg && DateKey in reg && ParseDate(reg[DateKey]) == Some(d)
    requires FormEntry(reg[RutKey], failing).stop.None?
    ensures 1 <= d.month <= 12
    ensures |Form(reg, failing).actions| >= 5
    ensures Form(reg, failing).actions[4] == Action(SelectYear, NatToString(d.year))
    ensures SelectYear !in failing ==>
      |Form(reg, failing).actions| >= 6 && Form(reg, failing).actions[5] == Action(SelectMonth, NatToString(d.month - 1))
    ensures SelectYear !in failing && SelectMonth !in failing ==>
      |Form(reg, failing).actions| >= 7 &&
      Form(reg, failing).actions[6] == Action(ClickDay, DayCellXPath(Selection(d.day, d.month - 1, d.year)))
  {
    var entry := FormEntry(reg[RutKey], failing);
    assert |entry.actions| == 4;
    var date := DateSelection(reg[DateKey], failing);
    var rest := Chain(date, Confirmation(failing));
    DateSelectionArguments(reg[DateKey], failing, d);
    ChainFacts(date, Confirmation(failing));
    assert forall k :: 0 <= k < |date.actions| ==> rest.actions[k] == date.actions[k];
    ChainFacts(entry, rest);
    assert Form(reg, failing).actions == entry.actions + rest.actions;
  }

  lemma ConfirmationRetry(f: set<Step>)
    ensures Ran(Confirmation(f).actions, JsClickContinue) <==> Ran(Confirmation(f).actions, ClickContinue) && ClickContinue in f
  {
    var retry := Retry(ClickContinue, JsClickContinue, f);
    var tail := Chain(Do(CheckDeclaration, "", f), Chain(Do(SecondContinue, "", f), Do(ClickPrint, "", f)));
    var focus := Do(FocusContinue, "", f);
    PrintOrdered(f);
    NotRanOutside(tail.actions, 16, 19, ClickContinue);
    NotRanOutside(tail.actions, 16, 19, JsClickContinue);
    assert !Ran(focus.actions, ClickContinue) && !Ran(focus.actions, JsClickContinue);
    RetryOnce(ClickContinue, JsClickContinue, f);
    assert StepsOf(retry.actions)[0] == ClickContinue;
    ChainFacts(retry, tail);
    ChainFacts(focus, Chain(retry, tail));
  }

  lemma FormRetry(reg: Record, f: set<Step>)
    ensures Ran(Form(reg, f).actions, JsClickContinue) <==> Ran(Form(reg, f).actions, ClickContinue) && ClickContinue in f
  {
    if RutKey in reg && DateKey in reg {
      var rut, fecha := reg[RutKey], reg[DateKey];
      var entry, date, confirm := FormEntry(rut, f), DateSelection(fecha, f), Confirmation(f);
      FormEntryOrdered(rut, f);
      DateSelectionOrdered(fecha, f);
      NotRanOutside(entry.actions, 5, 9, ClickContinue);
      NotRanOutside(entry.actions, 5, 9, JsClickContinue);
      NotRanOutside(date.actions, 9, 13, ClickContinue);
      NotRanOutside(date.actions, 9, 13, JsClickContinue);
      ConfirmationRetry(f);
      ChainFacts(date, confirm);
      ChainFacts(entry, Chain(date, confirm));
      assert Form(reg, f) == Chain(entry, Chain(date, confirm));
    }
  }

  lemma RenameOnlyRenames(id: string, names: set<string>, f: set<Step>)
    ensures StepsOf(Rename(id, names, f).progress.actions) == if Downloaded in names then [RenamePdf] else []
  {
  }

  /** The first Continuar is retried by JavaScript exactly when its click failed; no other step is retried. */
  lemma OneJavaScriptRetry(reg: Record, env: Env, names: set<string>)
    ensures Ran(Download(reg, env, names).progress.actions, JsClickContinue) <==>
      Ran(Download(reg, env, names).progress.actions, ClickContinue) && ClickContinue in env.failing
  {
    var form := Form(reg, env.failing);
    FormRetry(reg, env.failing);
    if form.stop.None? {
      var rn := Rename(FolioId(reg), Printed(names, env, form), env.failing);
      RenameOnlyRenames(FolioId(reg), Printed(names, env, form), env.failing);
      ChainFacts(form, rn.progress);
      assert Download(reg, env, names).progress == Chain(form, rn.progress);
    } else {
      assert Download(reg, env, names).progress == form;
    }
  }

  /** A missing download is not a failure: the record goes on, nothing is renamed and the folder is unchanged. */
  lemma MissingDownloadIsNotAFailure(reg: Record, env: Env, names: set<string>)
    requires Form(reg, env.failing).stop.None?
    requires !env.delivered && Downloaded !in names
    ensures Download(reg, env, names).progress == Form(reg, env.failing)
    ensures Download(reg, env, names).names == names && !Download(reg, env, names).renamed
  {
    assert Form(reg, env.failing).actions + [] == Form(reg, env.failing).actions;
  }

  /** The rename happens exactly when the download is there and `os.rename`
      does not fail; it moves the download to `{id}.pdf` and touches no other file. */
  lemma RenameEffect(id: string, names: set<string>, failing: set<Step>)
    ensures Rename(id, names, failing).renamed <==> Downloaded in names && RenamePdf !in failing
    ensures Rename(id, names, failing).renamed ==>
      PdfName(id) in Rename(id, names, failing).names &&
      (PdfName(id) != Downloaded ==> Downloaded !in Rename(id, names, failing).names)
    ensures forall n :: n != Downloaded && n != PdfName(id) ==> (n in Rename(id, names, failing).names <==> n in names)
    ensures !Rename(id, names, failing).renamed ==> Rename(id, names, failing).names == names
  {
  }

  /** The rename takes whatever `CtrlPdf.pdf` is in the folder: one left by an
      earlier record (whose own rename failed) is filed under this record's id
      when this record's download does not arrive. */
  lemma StaleDownloadIsFiled(reg: Record, env: Env, names: set<string>)
    requires Form(reg, env.failing).stop.None? && !env.delivered
    requires Downloaded in names && RenamePdf !in env.failing
    ensures Download(reg, env, names).renamed
    ensures PdfName(FolioId(reg)) in Download(reg, env, names).names
  {
  }

  /** A record without an id stores its form as `NOID.pdf`. */
  lemma MissingIdStoresNoid(reg: Record, env: Env, names: set<string>)
    requires IdKey !in reg && Download(reg, env, names).renamed
    ensures "NOID.pdf" in Download(reg, env, names).names
  {
    assert PdfName(FolioId(reg)) == "NOID.pdf";
  }

  method EnterForm(s: Session, rut: string, failing: set<Step>) returns (stop: Option<Step>)
    modifies s`trace
    ensures s.trace == old(s.trace) + FormEntry(rut, failing).actions
    ensures stop == FormEntry(rut, failing).stop
  {
    var ok := s.Perform(EnterRut, StripDots(rut), failing);
    if !ok { return Some(EnterRut); }
    ok := s.Perform(SelectHealth, Fonasa, failing);
    if !ok { return Some(SelectHealth); }
    ok := s.Perform(SelectMovement, Retirement, failing);
    if !ok { return Some(SelectMovement); }
    ok := s.Perform(OpenDateField, "", failing);
    if !ok { return Some(OpenDateField); }
    return None;
  }

  method SelectDate(s: Session, fecha: string, failing: set<Step>) returns (stop: Option<Step>)
    modifies s`trace
    ensures s.trace == old(s.trace) + DateSelection(fecha, failing).actions
    ensures stop == DateSelection(fecha, failing).stop
  {
    var parsed := ParseDate(fecha);
    if parsed.None? { return Some(ParseDueDate); }
    var w := Decompose(parsed.value);
    var ok := s.Perform(SelectYear, YearOption(w), failing);
    if !ok { return Some(SelectYear); }
    ok := s.Perform(SelectMonth, MonthOption(w), failing);
    if !ok { return Some(SelectMonth); }
    ok := s.Perform(ClickDay, DayCellXPath(w), failing);
    if !ok { return Some(ClickDay); }
    return None;
  }

  /** The declaration checkbox, the second Continuar and Imprimir. */
  method Declare(s: Session, failing: set<Step>) returns (stop: Option<Step>)
    modifies s`trace
    ensures s.trace == old(s.trace) + Declaration(failing).actions
    ensures stop == Declaration(failing).stop
  {
    var ok := s.Perform(CheckDeclaration, "", failing);
    if !ok { return Some(CheckDeclaration); }
    ok := s.Perform(SecondContinue, "", failing);
    if !ok { return Some(SecondContinue); }
    ok := s.Perform(ClickPrint, "", failing);
    if !ok { return Some(ClickPrint); }
    return None;
  }

  method ConfirmAndPrint(s: Session, f: Folder, env: Env) returns (stop: Option<Step>)
    modifies s`trace, f`names
    ensures s.trace == old(s.trace) + Confirmation(env.failing).actions
    ensures stop == Confirmation(env.failing).stop
    ensures f.names == if stop.None? && env.delivered then old(f.names) + {Downloaded} else old(f.names)
  {
    ghost var t0 := s.trace;
    var ok := s.Perform(FocusContinue, "", env.failing);
    if !ok { return Some(FocusContinue); }
    ok := s.Perform(ClickContinue, "", env.failing);
    if !ok {
      ok := s.Perform(JsClickContinue, "", env.failing);
      if !ok { return Some(JsClickContinue); }
    }
    ghost var head := [Action(FocusContinue, "")] + Retry(ClickContinue, JsClickContinue, env.failing).actions;
    assert s.trace == t0 + head;
    stop := Declare(s, env.failing);
    AppendAssoc(t0, head, Declaration(env.failing).actions);
    if stop.Some? { return; }
    if env.delivered {
      f.Receive(Downloaded);
    }
  }

  method StoreDownload(s: Session, f: Folder, id: string, failing: set<Step>) returns (stop: Option<Step>, renamed: bool)
    modifies s`trace, f`names
    ensures s.trace == old(s.trace) + Rename(id, old(f.names), failing).progress.actions
    ensures stop == Rename(id, old(f.names), failing).progress.stop
    ensures f.names == Rename(id, old(f.names), failing).names
    ensures renamed == Rename(id, old(f.names), failing).renamed
  {
    if Downloaded !in f.names {
      return None, false;
    }
    var ok := s.Perform(RenamePdf, PdfName(id), failing);
    if !ok { return Some(RenamePdf), false; }
    f.Rename(Downloaded, PdfName(id));
    return None, true;
  }

  /** The form of one record, from reading its fields to Imprimir, stopping at the first failure. */
  method FillForm(s: Session, f: Folder, reg: Record, env: Env) returns (stop: Option<Step>)
    modifies s`trace, f`names
    ensures s.trace == old(s.trace) + Form(reg, env.failing).actions
    ensures stop == Form(reg, env.failing).stop
    ensures f.names == Printed(old(f.names), env, Form(reg, env.failing))
  {
    if RutKey !in reg || DateKey !in reg {
      return Some(ReadRecord);
    }
    var rut, fecha := reg[RutKey], reg[DateKey];
    ghost var entry, date, confirm := FormEntry(rut, env.failing), DateSelection(fecha, env.failing), Confirmation(env.failing);
    assert Form(reg, env.failing) == Chain(entry, Chain(date, confirm));
    ghost var t0 := s.trace;
    stop := EnterForm(s, rut, env.failing);
    if stop.Some? { return; }
    stop := SelectDate(s, fecha, env.failing);
    AppendAssoc(t0, entry.actions, date.actions);
    if stop.Some? { return; }
    stop := ConfirmAndPrint(s, f, env);
    AppendAssoc(t0 + entry.actions, date.actions, confirm.actions);
    AppendAssoc(t0, entry.actions, date.actions + confirm.actions);
  }

  /** Every step of a record up to and including the rename, stopping at the first failure. */
  method PrepareRecord(s: Session, f: Folder, reg: Record, env: Env) returns (stop: Option<Step>, renamed: bool)
    modifies s`trace, f`names
    ensures s.trace == old(s.trace) + Download(reg, env, old(f.names)).progress.actions
    ensures stop == Download(reg, env, old(f.names)).progress.stop
    ensures f.names == Download(reg, env, old(f.names)).names
    ensures renamed == Download(reg, env, old(f.names)).renamed
  {
    ghost var t0, form := s.trace, Form(reg, env.failing);
    ghost var printed := Printed(f.names, env, form);
    stop := FillForm(s, f, reg, env);
    renamed := false;
    if stop.Some? { return; }
    stop, renamed := StoreDownload(s, f, FolioId(reg), env.failing);
    AppendAssoc(t0, form.actions, Rename(FolioId(reg), printed, env.failing).progress.actions);
  }
}
