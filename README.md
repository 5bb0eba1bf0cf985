# Previred / SIGO automation: a verified model of its decision logic

The repository automates the settlement ("finiquito") paperwork of three
entities (Asesorias, Business, EST) across two web portals:

- `sigo_login_*.py` reads the settlement-request table of the SIGO portal.
  It keeps the rows whose last working day is on or before today and writes
  them out as JSON records.
- `previred_ingreso_*.py` logs in to Previred. For each record it fills the
  "Ingreso Manual" form (RUT, FONASA, Retiro, the end date through a jQuery UI
  datepicker, Continuar, the declaration, Continuar, Imprimir), renames the
  downloaded `CtrlPdf.pdf` to `{id}.pdf`, and goes back to Ingreso Manual.
- `sigo_upload_*.py` filters the SIGO table by each record's id, attaches
  `{id}.pdf`, presses Guardar and Avanzar, and clears the filter.
- `script_maestro.py` deletes every old PDF from the download folder. It then
  runs the nine scripts in a fixed order.

This project models the decision logic under the browser calls of five of these
files:

- `previred_ingreso_EST.py`
- `previred_ingreso_Asesorias.py`
- the row filter of `sigo_login_Asesorias.py`
- the upload loop of `sigo_upload_Business.py`
- the cleanup and orchestration of `script_maestro.py`

## How the browser is modelled

The model never simulates a page. Every browser interaction is a `Step`: a wait,
click, select, `send_keys`, `execute_script` or `back()`. Its outcome is input
to the model. A run is given the set `failing` of steps that fail when they are
attempted; every other step succeeds. The proofs show that each step runs at
most once per record, so one set describes a record's run completely.

`Browser.Session` is the driver. Its `trace` is the sequence of interactions it
has performed, each with its argument (the typed RUT, the select value, the
XPath, the file path). Its `quits` field counts the calls to `driver.quit()`.
`Downloads.Folder` is the download directory as a set of file names.
`os.rename`, `os.remove`, `os.path.exists`, `os.listdir` and the browser's
landing of a download act on that set.

Each script is modelled twice:

- A specification function on values (`Submission.Download`,
  `IngresoEst.RecordRun`, `IngresoAsesorias.Queue`, `SigoUpload.UploadRecord`,
  `Maestro.MainLog`, ...) gives the interactions, the outcome and the folder
  that a run produces.
- An imperative method on the `Session` and `Folder` objects follows the
  source's statements: early `return` and `continue`, nested
  `try`/`except`, and `finally`. It is proved to append exactly those
  interactions and to leave exactly that state.

The lemmas then state the properties the scripts promise about the
specification functions.

Steps carry a rank. Each unit of work is proved `Ascending`: its steps come in
strictly increasing rank. This states both "the steps run in the script's
order" and "no step runs twice".

## Model

| member | source | states |
|---|---|---|
| Browser.ChainFacts | previred_ingreso_EST.py:185-301 | a unit of work that stopped at a failure is left as it is; otherwise the next unit's interactions are appended and its stop becomes the stop of the whole |
| Browser.RetryOnce | previred_ingreso_EST.py:241-258 | the retry runs exactly when the first attempt failed, at most two interactions occur, and the unit stops only when both attempts failed |
| Browser.DoStopsAtFirstFailure | previred_ingreso_EST.py:185-197 | a single unguarded interaction stops exactly when it fails |
| Browser.RetryStopsAtFirstFailure | previred_ingreso_EST.py:248-254 | a tolerated first attempt followed by its retry stops only at a failed retry |
| Browser.ChainStopsAtFirstFailure | previred_ingreso_EST.py:185-301 | running units of work one after another while each succeeds stops at the first failure that is not tolerated |
| Browser.Session.constructor | previred_ingreso_EST.py:345-384 | a new driver has performed no interaction and has not been quit |
| Browser.Session.Perform | previred_ingreso_EST.py:185-197 | one interaction is appended to the trace, and it succeeds exactly when its step is not failing |
| Browser.Session.Quit | previred_ingreso_EST.py:382-383 | `driver.quit()` is counted once more and nothing else changes |
| Downloads.Folder.constructor | script_maestro.py:12 | the folder starts with the given files |
| Downloads.Folder.Receive | previred_ingreso_EST.py:284-294 | a download adds its file and keeps every other file |
| Downloads.Folder.Rename | previred_ingreso_EST.py:303-315 | `os.rename` removes the source, adds the target (replacing it if present) and keeps every other file |
| Downloads.Folder.Remove | script_maestro.py:26 | `os.remove` removes exactly the named file |
| Text.NatToString | previred_ingreso_EST.py:46 | `str(n)` is a non-empty decimal numeral with no leading zero whose value is `n` |
| Text.NatToStringInjective | previred_ingreso_EST.py:65-68 | two numbers print alike exactly when they are equal |
| Text.NatToStringOfCanonical | previred_ingreso_EST.py:65-68 | every canonical numeral is what `str` prints for its value, so printing is onto the canonical numerals |
| Text.StripDots | previred_ingreso_EST.py:191 | `replace(".", "")` never lengthens the RUT |
| Text.StripDotsRemovesDots | previred_ingreso_EST.py:191 | no dot is left in the typed RUT |
| Text.StripDotsKeepsOthers | previred_ingreso_EST.py:191 | every character other than a dot is kept as often as it occurs |
| Text.StripDotsAppend | previred_ingreso_EST.py:191 | removing dots works piecewise, so the kept characters stay in their order |
| Text.StripDotsNoDots | previred_ingreso_Asesorias.py:148 | a RUT without dots is typed unchanged, so stripping twice equals stripping once |
| Text.StripDotsSeparators | previred_ingreso_EST.py:191 | a RUT with two thousands separators loses exactly those two dots |
| Text.StripDotsExample | previred_ingreso_EST.py:191 | `12.345.678-9` is typed as `12345678-9` |
| Text.TrimStart | sigo_login_Asesorias.py:175-178 | `lstrip` leaves the suffix after a run of white space, and the suffix does not start with white space |
| Text.TrimEnd | sigo_login_Asesorias.py:175-178 | `rstrip` leaves the prefix before a run of white space, and the prefix does not end with white space |
| Text.Strip | sigo_login_Asesorias.py:175-178 | a stripped cell text neither starts nor ends with white space |
| Text.StripSurrounded | sigo_login_Asesorias.py:175-178 | `strip` removes exactly the white space around a core text that neither starts nor ends with white space |
| Text.StripIdempotent | sigo_login_Asesorias.py:175-178 | stripping twice is stripping once |
| Text.Lower | script_maestro.py:25 | `lower()` keeps the length, turns each capital `A`-`Z` into its small letter 32 code points on, leaves every other character alone, and leaves no capital behind |
| Text.LowerAppend | script_maestro.py:25 | lower-casing a concatenation is concatenating the lower-cased parts, so the tail of a lower-cased name is the lower-cased tail |
| Text.LowerIdempotent | script_maestro.py:25 | lower-casing an already lower-cased name changes nothing |
| Calendar.DaysInMonth | previred_ingreso_EST.py:33 | every month has 28 to 31 days, and a month has 29 exactly when it is February of a Gregorian leap year |
| Calendar.OnOrBeforeIsTotalOrder | sigo_login_Asesorias.py:192-201 | the `<=` on dates is reflexive, total, antisymmetric and transitive |
| Calendar.DayField | previred_ingreso_EST.py:33 | the `%d` directive only yields days 1 to 31 |
| Calendar.MonthField | previred_ingreso_EST.py:33 | the `%m` directive only yields months 1 to 12 |
| Calendar.YearField | previred_ingreso_EST.py:33 | the `%Y` directive (four digits) only yields years 0 to 9999 |
| Calendar.Assemble | previred_ingreso_EST.py:33 | the three fields are assembled only into a date that exists |
| Calendar.ParseDate | previred_ingreso_EST.py:33 | `strptime(s, "%d-%m-%Y")` succeeds only with a date that exists in the Gregorian calendar |
| Calendar.ParseFields | previred_ingreso_EST.py:33 | a text whose first two fields contain no dash is parsed field by field at its first two dashes |
| Calendar.FormatDate | previred_ingreso_EST.py:33 | the `dd-mm-yyyy` spelling of a date has ten characters with dashes at positions 2 and 5 |
| Calendar.ParseFormat | previred_ingreso_EST.py:33 | parsing the `dd-mm-yyyy` spelling of any valid date gives that date back |
| Calendar.FormatParse | previred_ingreso_EST.py:33 | a ten-character text that parses, and whose day is not padded with a space, is exactly the `dd-mm-yyyy` spelling of its date |
| Calendar.RejectsFebruary29In2023 | previred_ingreso_EST.py:33-40 | `29-02-2023` does not parse |
| Calendar.AcceptsFebruary29In2024 | previred_ingreso_EST.py:33-36 | `29-02-2024` parses to 29 February 2024 |
| Calendar.RejectsApril31 | previred_ingreso_EST.py:33-40 | `31-04-2024` does not parse |
| Calendar.AcceptsFifthOfMarch | previred_ingreso_EST.py:33-36 | `05-03-2024` parses to 5 March 2024 |
| Calendar.AcceptsUnpaddedFields | previred_ingreso_EST.py:33 | `5-3-2024` parses too, since `%d` and `%m` accept one digit |
| Calendar.AcceptsSpacePaddedDay | previred_ingreso_EST.py:33 | ` 5-03-2024` parses too, since `%d` accepts a space-padded day |
| Calendar.RejectsTwoDigitYear | previred_ingreso_EST.py:33-40 | `05-03-24` does not parse |
| Calendar.RejectsDayZero | previred_ingreso_EST.py:33-40 | `00-03-2024` does not parse |
| Calendar.RejectsMonthThirteen | previred_ingreso_EST.py:33-40 | `05-13-2024` does not parse |
| DatePicker.Decompose | previred_ingreso_EST.py:34-36 | a valid date splits into its own day, its month minus one (between 0 and 11) and its own year |
| DatePicker.DecomposeRoundTrip | previred_ingreso_EST.py:33-36 | recomposing `(day, mes + 1, year)` gives back the same valid date |
| DatePicker.DayCellXPathInjective | previred_ingreso_EST.py:65-68 | two selections give the same day-cell XPath exactly when their day, zero-based month and year are all equal |
| DatePicker.PrintsYear2024 | previred_ingreso_EST.py:46 | the year select receives `"2024"` for the year 2024 |
| DatePicker.FifthOfMarchSelection | previred_ingreso_Asesorias.py:50-53 | `05-03-2024` selects year `"2024"` and month `"2"`, and its XPath has `data-month='2'`, `data-year='2024'` and day text `5` |
| Submission.SetupOrdered | previred_ingreso_EST.py:111-173 | login, company, Movimiento and Ingreso Manual run in that order, each at most once |
| Submission.FormEntryOrdered | previred_ingreso_EST.py:185-231 | RUT, FONASA, Retiro and the date field run in that order, each at most once |
| Submission.DateSelectionOrdered | previred_ingreso_EST.py:30-79 | the year select, the month select and the day cell run in that order, each at most once |
| Submission.ConfirmationOrdered | previred_ingreso_EST.py:241-294 | Continuar, its JavaScript retry, the declaration, the second Continuar and Imprimir run in that order, each at most once |
| Submission.FormOrdered | previred_ingreso_EST.py:185-294 | the whole form runs in the script's order with no step repeated |
| Submission.DownloadOrdered | previred_ingreso_EST.py:185-315 | every interaction of a record, from the RUT to the rename, comes in the script's order, each at most once |
| Submission.FormEntryStopsAtFirstFailure | previred_ingreso_EST.py:185-231 | the first failed field ends the record |
| Submission.DateSelectionStopsAtFirstFailure | previred_ingreso_EST.py:30-79 | the first failed datepicker interaction ends the record |
| Submission.ConfirmationStopsAtFirstFailure | previred_ingreso_EST.py:241-294 | the first failure ends the record, except a failed Continuar click, which is retried |
| Submission.DownloadStopsAtFirstFailure | previred_ingreso_EST.py:185-301 | within a record, the first failed interaction other than the retried Continuar click ends the record, and nothing after it runs |
| Submission.MissingFieldEndsBeforeInteraction | previred_ingreso_EST.py:177-183 | a record without `rut` or `fecha_ultimo_dia` ends before any interaction and leaves the folder unchanged |
| Submission.RutTypedWithoutDots | previred_ingreso_EST.py:185-197 | the first interaction types the record's RUT with every dot removed |
| Submission.ParsableDateNeverHalts | previred_ingreso_EST.py:233-239 | with an end date that parses, a record only stops at a failed interaction, and once the field entry succeeds the year select is reached |
| Submission.UnparsableDateTouchesNoWidget | previred_ingreso_EST.py:33-40 | with an end date that does not parse, the record stops right after the date field opens: no datepicker select, no Imprimir, nothing later |
| Submission.DateSelectionArguments | previred_ingreso_EST.py:43-68 | a parsed date sends `str(year)` to the year select, `str(month - 1)` to the month select and that date's day-cell XPath, as far as the earlier ones succeed |
| Submission.DatePickerArguments | previred_ingreso_EST.py:233-239 | within a record's form, the fifth to seventh interactions are that year, zero-based month and day cell |
| Submission.ConfirmationRetry | previred_ingreso_EST.py:248-254 | the JavaScript click runs exactly when the normal Continuar click ran and failed |
| Submission.FormRetry | previred_ingreso_Asesorias.py:178-181 | the same holds for the whole form |
| Submission.RenameOnlyRenames | previred_ingreso_EST.py:303-315 | the rename step performs one rename when `CtrlPdf.pdf` exists and nothing otherwise |
| Submission.OneJavaScriptRetry | previred_ingreso_EST.py:241-258 | for a whole record, the JavaScript Continuar runs exactly when the normal click ran and failed; no other step is retried |
| Submission.MissingDownloadIsNotAFailure | previred_ingreso_EST.py:308-312 | when the download is missing, the record goes on with its form's outcome; nothing is renamed and the folder is unchanged |
| Submission.RenameEffect | previred_ingreso_EST.py:303-315 | the rename happens exactly when `CtrlPdf.pdf` exists and `os.rename` succeeds; it moves that file, whichever record's form it holds, to `{id}.pdf` and leaves every other file as it was |
| Submission.StaleDownloadIsFiled | previred_ingreso_EST.py:303-315 | a `CtrlPdf.pdf` left by an earlier record is filed under this record's id when this record's own download does not arrive |
| Submission.MissingIdStoresNoid | previred_ingreso_EST.py:177-183 | a record without an id that reaches the rename stores its form as `NOID.pdf` |
| Submission.EnterForm | previred_ingreso_EST.py:185-231 | typing the RUT, FONASA, Retiro and the date field append exactly the interactions of the field entry and report its stop |
| Submission.SelectDate | previred_ingreso_EST.py:30-79 | `seleccionar_fecha_jquery_ui` appends exactly the datepicker's interactions and reports where it stopped |
| Submission.Declare | previred_ingreso_EST.py:260-294 | the declaration, the second Continuar and Imprimir append exactly their interactions and report the stop |
| Submission.ConfirmAndPrint | previred_ingreso_EST.py:241-294 | Continuar with its retry, through Imprimir: exact interactions and stop; the download lands exactly when Imprimir succeeded and the portal delivered it |
| Submission.StoreDownload | previred_ingreso_EST.py:303-315 | the rename step: exact interactions, stop, folder and whether it renamed |
| Submission.FillForm | previred_ingreso_EST.py:177-294 | the form of a record: exact interactions, stop and folder |
| Submission.PrepareRecord | previred_ingreso_EST.py:175-315 | a record up to its stored PDF: exact interactions, stop, folder and whether it renamed |
| IngresoEst.QueueStep | previred_ingreso_EST.py:374-375 | one more record extends the run's log with that record's interactions and outcome, and its folder |
| IngresoEst.QueueAttemptsEveryRecord | previred_ingreso_EST.py:374-375 | every record of the queue gets exactly one outcome |
| IngresoEst.QueueOutcomeAt | previred_ingreso_EST.py:374-375 | the outcome of record `i` is what `procesar_registro` makes of it in the folder the earlier records left, whatever happened to them |
| IngresoEst.RecoveryFallsBackOnce | previred_ingreso_EST.py:317-343 | the final Continuar runs, `back()` runs exactly when it failed, and Ingreso Manual is attempted in every case |
| IngresoEst.FailedRecordSkipsRecovery | previred_ingreso_EST.py:185-301 | a record that failed before the rename ends at that step: neither the final Continuar nor Ingreso Manual runs |
| IngresoEst.CompletedRecordRecovers | previred_ingreso_EST.py:317-343 | a record that got through the rename runs the recovery after all of its form; it re-enters Ingreso Manual exactly when that click succeeds |
| IngresoEst.EmptyQueue | previred_ingreso_EST.py:368-383 | with no records, only the setup runs |
| IngresoEst.SetupFailureProcessesNothing | previred_ingreso_EST.py:368-383 | a failed setup step processes no record, types no RUT and leaves the folder unchanged |
| IngresoEst.Recover | previred_ingreso_EST.py:317-343 | the recovery appends exactly its interactions and reports whether Ingreso Manual was re-entered |
| IngresoEst.ProcessRecord | previred_ingreso_EST.py:175-343 | `procesar_registro` appends exactly the record's interactions and leaves its outcome and folder |
| IngresoEst.SetupStep | previred_ingreso_EST.py:111-134 | a setup function quits the driver exactly when its step fails |
| IngresoEst.OpenSession | previred_ingreso_EST.py:111-173 | the three setup functions: exact interactions, and one quit exactly when setup fails |
| IngresoEst.ProcessQueue | previred_ingreso_EST.py:374-375 | the loop appends the queue's interactions, and yields its outcomes and folder |
| IngresoEst.RunSession | previred_ingreso_EST.py:345-384 | `main`: the run's interactions, outcomes and folder; the driver is quit twice after a setup failure and once otherwise |
| IngresoAsesorias.QueueStopsAtFirstFailedRecord | previred_ingreso_Asesorias.py:136-249 | every outcome but the last is a completed record; the run is aborted exactly when the last one failed, and the abort names its step; when nothing failed every record has an outcome |
| IngresoAsesorias.QueueOutcomeAt | previred_ingreso_Asesorias.py:136-241 | the outcome of record `i` is the loop body's for that record after a prefix that did not abort; a failure leaves exactly `i + 1` outcomes |
| IngresoAsesorias.RecoveryFallsBackOnce | previred_ingreso_Asesorias.py:220-241 | `back()` runs exactly when the final Continuar failed; a failed `back()` ends the run, a failed Ingreso Manual does not |
| IngresoAsesorias.RecordCompletes | previred_ingreso_Asesorias.py:209-241 | a record that reaches the rename, with a recovery that does not fail, completes even with a missing download or a failed Ingreso Manual |
| IngresoAsesorias.MissingFieldAbortsRun | previred_ingreso_Asesorias.py:137-139 | a record without `rut` or `fecha_ultimo_dia` fails before any interaction |
| IngresoAsesorias.EmptyQueue | previred_ingreso_Asesorias.py:136-241 | with no records and a successful setup, only the setup runs |
| IngresoAsesorias.AbortedQueueStays | previred_ingreso_Asesorias.py:245-249 | once a prefix of the queue has aborted, no later record adds anything |
| IngresoAsesorias.Recover | previred_ingreso_Asesorias.py:220-241 | the recovery appends exactly its interactions; it aborts exactly when Continuar and `back()` both fail, and it re-enters exactly when it does not abort and Ingreso Manual succeeds |
| IngresoAsesorias.ProcessRecord | previred_ingreso_Asesorias.py:137-241 | the loop body: exact interactions, outcome and folder |
| IngresoAsesorias.OpenSession | previred_ingreso_Asesorias.py:90-133 | setup appends exactly its interactions and reports whether it succeeded |
| IngresoAsesorias.ProcessQueue | previred_ingreso_Asesorias.py:136-241 | the loop: exact interactions, outcomes, abort and folder |
| IngresoAsesorias.RunSession | previred_ingreso_Asesorias.py:90-249 | `main`: the run's interactions, outcomes, abort and folder; the driver is quit exactly once on every path |
| SigoFilter.Project | sigo_login_Asesorias.py:175-178 | the record takes columns 1, 2, 8 and 11, each stripped: no field starts or ends with white space |
| SigoFilter.Filter | sigo_login_Asesorias.py:168-201 | the output has at most as many records as the table has rows |
| SigoFilter.FilterAppend | sigo_login_Asesorias.py:170-201 | one more row adds its projection exactly when it is accepted |
| SigoFilter.ShortRowSkipped | sigo_login_Asesorias.py:172-173 | a row with fewer than 12 cells adds nothing |
| SigoFilter.UnparsableDateSkipped | sigo_login_Asesorias.py:184-189 | a row whose date does not parse adds nothing, whatever the limit |
| SigoFilter.DatedRowKeptIffOnOrBefore | sigo_login_Asesorias.py:192-201 | a row whose date parses is added exactly when that date is on or before the limit; the limit itself is included |
| SigoFilter.FilterIsOrderedSelection | sigo_login_Asesorias.py:168-198 | the output is the accepted rows, projected, in table order: strictly increasing positions, each naming an accepted row, and every accepted row named |
| SigoFilter.FilteredDatesParse | sigo_login_Asesorias.py:184-201 | every emitted end date parses and is not later than the limit |
| SigoFilter.ToRecord | sigo_login_Asesorias.py:193-198 | the JSON record carries the entry's id, RUT and end date under the keys the submission scripts read |
| SigoFilter.FilteredRecordsReachDatePicker | sigo_login_Asesorias.py:185 | a filtered record never stops at its date in a submission script, since both use `%d-%m-%Y` |
| SigoFilter.FilterRows | sigo_login_Asesorias.py:166-205 | the `for row in rows` loop leaves exactly the filtered records in `lista_resultados` |
| SigoUpload.RetryFilter | sigo_upload_Business.py:99-102 | clearing, directly or by JavaScript, empties the filter unless both ways fail, in which case the text stays |
| SigoUpload.RevealKeepsFilter | sigo_upload_Business.py:75-93 | revealing the filter does not change its text |
| SigoUpload.EnterIdFilter | sigo_upload_Business.py:96-105 | once step 1 succeeds, the filter holds exactly the id, whatever it held before |
| SigoUpload.SubmitFilter | sigo_upload_Business.py:156-162 | after Avanzar and the second clear, the filter is empty; an earlier stop leaves it as it was |
| SigoUpload.AttachFilter | sigo_upload_Business.py:119-162 | a completed upload clears the filter; otherwise it is unchanged |
| SigoUpload.PreludeFilter | sigo_upload_Business.py:75-105 | once steps 0 and 1 succeed, the filter holds exactly the id |
| SigoUpload.RowFilter | sigo_upload_Business.py:108-162 | looking up the cell leaves the filter alone; a completed upload clears it |
| SigoUpload.FilterAfterRecord | sigo_upload_Business.py:69-163 | after a record that does not end the run, the filter holds the id if the record was skipped and nothing if it was uploaded, whatever it held before |
| SigoUpload.UploadOrdered | sigo_upload_Business.py:75-163 | a record's interactions follow the script's order, each at most once |
| SigoUpload.MissingCellSkipsRecord | sigo_upload_Business.py:108-115 | when the id cell does not appear, the record is skipped with no row click, upload, Guardar or Avanzar |
| SigoUpload.MissingPdfSkipsRecord | sigo_upload_Business.py:128-134 | when `{id}.pdf` is not in the folder, the record is skipped before anything is sent, saved or advanced |
| SigoUpload.AttachUploaded | sigo_upload_Business.py:128-151 | a completed upload sends the file path, then Guardar, then Avanzar |
| SigoUpload.UploadedSentStoredPdf | sigo_upload_Business.py:128-153 | a completed upload had `{id}.pdf` in the folder, sent `descarga_dir/{id}.pdf`, and pressed Guardar and Avanzar |
| SigoUpload.SaveFailureOnlyWarns | sigo_upload_Business.py:137-145 | a failing Guardar changes no interaction and no outcome other than the `saved` flag |
| SigoUpload.PreludeStops | sigo_upload_Business.py:75-105 | steps 0 and 1 only stop at the filter wait, a failed JavaScript clear or the typing, and only when that step failed |
| SigoUpload.AttachStops | sigo_upload_Business.py:119-163 | after the cell is found, a skip is always the missing PDF, and an abort is always a failed row click, upload input, file, Avanzar, filter wait or JavaScript clear |
| SigoUpload.SkipAndAbortStages | sigo_upload_Business.py:69-169 | a record is skipped only at the id cell or the missing PDF; every abort other than a missing id is a failed interaction, and it is never the label, the first clear or Guardar |
| SigoUpload.AdvanceFailureAborts | sigo_upload_Business.py:148-151 | a failed Avanzar after the file was sent ends the run |
| SigoUpload.FilterOrRowFailureAborts | sigo_upload_Business.py:96-122 | a filter that never becomes visible, or a row that cannot be clicked, ends the run |
| SigoUpload.QueueStopsAtFirstAbort | sigo_upload_Business.py:69-169 | every outcome but the last is an upload or a skip; the run is aborted exactly when the last one aborted; without an abort every record has an outcome |
| SigoUpload.QueueOutcomeAt | sigo_upload_Business.py:69-71 | records are processed in JSON order: outcome `i` is the loop body's for record `i`, and an abort leaves exactly `i + 1` outcomes |
| SigoUpload.AbortedQueueStays | sigo_upload_Business.py:167-169 | once a prefix of the queue has aborted, no later record adds anything |
| SigoUpload.FilterInput.constructor | sigo_upload_Business.py:96-98 | the filter field starts with the given text |
| SigoUpload.ClearField | sigo_upload_Business.py:159-162 | `clear()` with its JavaScript fallback: exact interactions, success, and the field's new text |
| SigoUpload.Reveal | sigo_upload_Business.py:75-93 | step 0 appends exactly its best-effort interactions |
| SigoUpload.TypeId | sigo_upload_Business.py:96-105 | step 1: exact interactions, stop and the field's new text |
| SigoUpload.SendAndAdvance | sigo_upload_Business.py:128-163 | sending, Guardar, Avanzar and the second clear: exact interactions, stop and field text; `saved` tells whether Guardar succeeded |
| SigoUpload.OpenRequestRow | sigo_upload_Business.py:119-127 | the row click and the upload input: exact interactions and stop |
| SigoUpload.AttachFile | sigo_upload_Business.py:119-163 | steps 2.1 to 6: exact interactions, outcome and field text |
| SigoUpload.EnterFilter | sigo_upload_Business.py:75-105 | steps 0 and 1: exact interactions, stop and field text |
| SigoUpload.FindAndAttach | sigo_upload_Business.py:108-163 | steps 2 to 6: exact interactions, outcome and field text |
| SigoUpload.ProcessRecord | sigo_upload_Business.py:69-163 | the loop body: exact interactions, outcome and field text |
| SigoUpload.ProcessQueue | sigo_upload_Business.py:69-166 | the loop: exact interactions, outcomes and abort |
| SigoUpload.OpenRequestsPage | sigo_upload_Business.py:44-56 | login and the requests page: exact interactions and stop |
| SigoUpload.RunSession | sigo_upload_Business.py:44-172 | `main`: the run's interactions, outcomes and abort; the driver is quit exactly once on every path |
| Maestro.Kept | script_maestro.py:24-26 | the cleanup only removes files |
| Maestro.IsPdfIffExtension | script_maestro.py:25 | a name is deleted exactly when it has at least four characters and ends in a dot followed by `p`, `d`, `f`, each in either case |
| Maestro.PdfInAnyCase | script_maestro.py:25 | any name whose extension lower-cases to `.pdf` is deleted |
| Maestro.UpperCasePdfIsDeleted | script_maestro.py:25 | `A.PDF` is deleted |
| Maestro.OtherFilesAreKept | script_maestro.py:25 | `informe.txt`, `pdf` and `archivo.pdf.bak` are kept |
| Maestro.KeptIsExactlyNonPdf | script_maestro.py:24-26 | the cleanup keeps exactly the files that are not PDFs, and a second cleanup removes nothing |
| Maestro.RenamedFormIsPdf | script_maestro.py:25 | every renamed form `{id}.pdf` is a PDF, whatever the id |
| Maestro.NoStaleFormSurvives | script_maestro.py:24-26 | no `{id}.pdf` and no `CtrlPdf.pdf` survives the cleanup |
| Maestro.Cleanup | script_maestro.py:23-26 | the loop over `os.listdir` leaves exactly the files that are not PDFs |
| Maestro.PathExamples | script_maestro.py:44-56 | scripts are named `{phase}_{entity}.py`, as `sigo_login_Asesorias.py` and `sigo_upload_EST.py` |
| Maestro.ScriptsLayout | script_maestro.py:44-56 | the nine scripts: entities Asesorias, Business, EST; within each, login, ingreso, upload; each at exactly one position |
| Maestro.ScriptsDistinct | script_maestro.py:44-56 | no script appears twice among the nine |
| Maestro.ScriptLog | script_maestro.py:28-37 | `run_script` first logs the start of its script; it logs nothing more exactly when the launch fails |
| Maestro.RaisedStays | script_maestro.py:40-58 | once a call has raised, the remaining calls change nothing |
| Maestro.ScriptLogStarts | script_maestro.py:32 | each `run_script` starts exactly its own script |
| Maestro.StartedStep | script_maestro.py:28-37 | a call that is reached starts its own script; a call after a raise starts nothing |
| Maestro.ErrorsDoNotStopTheRun | script_maestro.py:33-37 | when the scripts can be launched, each is started in order whatever its exit status, and nothing raises |
| Maestro.LaunchFailureStopsTheRun | script_maestro.py:33-37 | a script that cannot be launched is the last one started, and the run raises |
| Maestro.StatusesDoNotMatter | script_maestro.py:36-37 | exit statuses never change which scripts start or whether the run raises |
| Maestro.StartedInMain | script_maestro.py:40-58 | the opening and closing lines of `main` start no script |
| Maestro.MainRunsAllNine | script_maestro.py:40-58 | when every script can be launched, `main` starts all nine in the fixed order and writes its closing line |
| Maestro.MainStopsAtLaunchFailure | script_maestro.py:40-58 | a script of `main` that cannot be launched is the last one started, and `main` raises without its closing line |
| Maestro.NoEndInRun | script_maestro.py:44-56 | the script calls never write the closing line |
| Maestro.MainLogCloses | script_maestro.py:58 | the closing line is written exactly when no call raised |
| Maestro.Logger.constructor | script_maestro.py:16-22 | the model's log sink starts empty for this run; the real `automatizacion.log` is opened in append mode (line 18) and keeps earlier runs' lines, which is why `Maestro.Automate`'s `ensures` hold for any earlier content `old(log.lines)` |
| Maestro.Logger.Log | script_maestro.py:32 | a log call appends exactly its line |
| Maestro.RunScript | script_maestro.py:28-37 | `run_script` appends exactly its script's lines, and raises exactly when the launch fails |
| Maestro.RunUnlessRaised | script_maestro.py:44-56 | one call of `main` under exception propagation extends the log to that of the first `k + 1` calls |
| Maestro.RunMain | script_maestro.py:40-58 | `main` appends exactly its log, and raises exactly when a launch failed |
| Maestro.Automate | script_maestro.py:23-58 | running the file cleans the folder, then runs `main`: the folder keeps exactly its non-PDF files, and the log is the cleanup line then `main`'s log |

## Left out

- Selenium itself: driver construction, browser profiles, what a wait, click, `Select`, `send_keys` or `execute_script` does, and XPath evaluation. Each interaction is an abstract step whose outcome is input; only the XPath strings are built.
- `time.sleep`, timeouts, logging text, `traceback` and screenshots. These have no decision logic. `Maestro` keeps the log lines only as markers of which scripts started.
- `load_dotenv`/`os.getenv` and JSON reading and writing. Records are given as maps from key to text. A failure to build the driver is not modelled. In the Previred scripts a failure to load the JSON ends the script before any modelled step. In `sigo_upload_Business.py` the JSON is loaded at lines 64-65, after the login and the requests page (`SigoUpload.OpenRequestsPage`). A load failure there goes to the `except` at line 167 and quits the driver after those steps. The model does not include that failure: its run always has the records.
- `subprocess.check_call` is a `Launch` value per script: it exits with status zero, exits with a non-zero status, or cannot be launched. The nine scripts it runs are not part of this model.
- `os.makedirs`. The folder always exists in the model.
- The relative `descarga` folder of the Previred scripts and the absolute `descarga_dir` of the upload and cleanup scripts are treated as one folder.
- The rest of `sigo_login_Asesorias.py`: login, the company and status dropdowns, and the sorting double-click are UI-only. The model starts from the table's cell texts, and the limit date is a parameter (today's date in the source).
- `strip` and `lower` are modelled on ASCII only. White space is the ASCII set `str.isspace` accepts, and only `A`-`Z` are lower-cased.
- `Browser.Step` is a numbered rank; only the 43 named steps occur in any run.
- SigoUpload.Reveal: `is_displayed()` raising is not separated from `find_element` failing. Both end step 0 with only a warning, which is what the source does with either.
- SigoUpload.SendAndAdvance: states the `saved` flag only when the upload completed. When a later step fails, the flag is not used by the caller.
- In `previred_ingreso_Asesorias.py` a failed `back()` is unguarded, so it aborts the run; the model follows the code.
- In `previred_ingreso_EST.py` a setup failure quits the driver twice: once in the failing setup function and once in `main`'s `finally`. The model follows the code: `quits` grows by 2 on that path (`IngresoEst.RunSession`).
- In `script_maestro.py` an exception other than `CalledProcessError` is modelled as a launch failure that propagates out of `main` (`raised`). The interpreter's traceback and exit status are not modelled.
- SigoUpload.FilePath: record ids are treated as plain file names that contain no `/`, and the download folder as a flat set of names; the same holds for `Downloads.PdfName`, `SigoUpload.UploadedSentStoredPdf` and `Maestro.NoStaleFormSurvives`. The scripts do not check this, and with a `/` in the id they behave differently. For an absolute id such as `/x`, `os.path.join` drops `descarga_dir`, so sigo_upload_Business.py:128-130 checks for and sends `/x.pdf`, where the model sends `descarga_dir` + `//x.pdf`. For an id such as `a/b`, the rename at previred_ingreso_EST.py:306-309 moves the form into the sub-directory `a` (or fails when it does not exist). `os.listdir` at script_maestro.py:24 lists only `a`, so the cleanup never deletes that form, whereas the model puts the name `a/b.pdf` in the folder's flat set and removes it.
- Maestro.Automate: `script_maestro.py:7-10` reads `PREVIRED_USER`, `PREVIRED_PASS`, `SIGO_USER` and `SIGO_PASS` with `os.environ[...]` (that file loads no `.env`). If one of them is unset, the file raises `KeyError` at import, before the cleanup at lines 24-26 and before `main`, so the folder is left untouched and no script runs. The model does not include that path: `Automate` always cleans and then runs `main`.
- In `script_maestro.py` an `os.remove` that raises (a sub-directory named `*.pdf`, a permission error) aborts the whole file at import time, before `main` runs. The model's `Folder.Remove` always succeeds, and `Maestro.Automate` always goes on to `main`.
- Downloads.Folder.Receive: a download always lands at once under its own name, and it is merged into an existing file of that name. Firefox would save a second `CtrlPdf.pdf` as `CtrlPdf(1).pdf`, and a form can arrive after the fixed 5-second wait (`previred_ingreso_EST.py` lines 296-298). The model keeps no record of which record's form a file holds. So when a `CtrlPdf.pdf` is left behind (a failed rename, a late download), the model loses the later download, and it does not show that the rename files the earlier form under the later id. `Submission.StaleDownloadIsFiled` states the part the model does capture.
- Calendar.ParseDate: digits are ASCII only. CPython's `strptime` compiles `[12]\d` in `%d` and `\d\d\d\d` in `%Y` without `re.ASCII`, so it also accepts other Unicode decimal digits there, as in `05-03-` followed by a year in Arabic-Indic digits. The model rejects such dates.
- Calendar.DayField: rejects a non-ASCII decimal digit after `1` or `2`, which CPython accepts (see `Calendar.ParseDate`).
- Calendar.YearField: rejects non-ASCII decimal digits, which CPython accepts (see `Calendar.ParseDate`).
