/** `script_maestro.py`: before anything else it deletes every stale PDF from
    the download folder, then `main` runs the nine per-entity scripts in a
    fixed order. A script that exits with an error is only logged; a script
    that cannot be launched at all raises out of `main` and ends the run. */
module Maestro {
  import opened Wrappers
  import opened Text
  import opened Downloads

  // ---------------------------------------------------------------------------
  // Cleanup of the download folder

  /** `f.lower().endswith(".pdf")` */
  predicate IsPdf(name: string) {
    EndsWith(Lower(name), ".pdf")
  }

  /** The names the cleanup leaves behind. */
  function Kept(names: set<string>): (r: set<string>)
    ensures r <= names
  {
    set n | n in names && !IsPdf(n)
  }

  lemma LowerSuffix(s: string, k: nat)
    requires k <= |s|
    ensures Lower(s)[k..] == Lower(s[k..])
  {
    LowerAppend(s[..k], s[k..]);
    assert s[..k] + s[k..] == s;
  }

  /** A name is a PDF exactly when it has at least four characters and they
      end in a dot followed by `p`, `d`, `f`, each in either case. */
  lemma IsPdfIffExtension(name: string)
    ensures IsPdf(name) <==>
      var n := |name|;
      n >= 4 && name[n - 4] == '.' &&
      (name[n - 3] == 'p' || name[n - 3] == 'P') &&
      (name[n - 2] == 'd' || name[n - 2] == 'D') &&
      (name[n - 1] == 'f' || name[n - 1] == 'F')
  {
    var n := |name|;
    if n >= 4 {
      LowerSuffix(name, n - 4);
      var tail := Lower(name[n - 4..]);
      assert tail[0] == LowerChar(name[n - 4]) && tail[1] == LowerChar(name[n - 3]);
      assert tail[2] == LowerChar(name[n - 2]) && tail[3] == LowerChar(name[n - 1]);
      assert IsPdf(name) <==> tail == ".pdf";
      assert tail == ".pdf" <==> tail[0] == '.' && tail[1] == 'p' && tail[2] == 'd' && tail[3] == 'f';
    }
  }

  /** Any stem followed by an extension that lower-cases to `.pdf` is a PDF, so `.PDF` and `.Pdf` are deleted too. */
  lemma PdfInAnyCase(stem: string, ext: string)
    requires Lower(ext) == ".pdf"
    ensures IsPdf(stem + ext)
  {
    LowerAppend(stem, ext);
    assert (Lower(stem) + ".pdf")[|Lower(stem)|..] == ".pdf";
  }

  lemma UpperCasePdfIsDeleted()
    ensures IsPdf("A.PDF")
  {
    PdfInAnyCase("A", ".PDF");
    assert "A" + ".PDF" == "A.PDF";
  }

  /** Names shorter than the extension, and names with another extension, are never deleted. */
  lemma OtherFilesAreKept(names: set<string>)
    ensures "informe.txt" in names ==> "informe.txt" in Kept(names)
    ensures "pdf" in names ==> "pdf" in Kept(names)
    ensures "archivo.pdf.bak" in names ==> "archivo.pdf.bak" in Kept(names)
  {
    IsPdfIffExtension("informe.txt");
    IsPdfIffExtension("pdf");
    IsPdfIffExtension("archivo.pdf.bak");
  }

  /** What the cleanup leaves: exactly the names that are not PDFs; running it again removes nothing. */
  lemma KeptIsExactlyNonPdf(names: set<string>)
    ensures forall n :: n in Kept(names) <==> n in names && !IsPdf(n)
    ensures Kept(Kept(names)) == Kept(names)
  {
  }

  /** A renamed form `{id}.pdf` is a PDF whatever the record's id. */
  lemma RenamedFormIsPdf(id: string)
    ensures IsPdf(PdfName(id))
  {
    var name := PdfName(id);
    var n := |id|;
    assert name[n] == '.' && name[n + 1] == 'p' && name[n + 2] == 'd' && name[n + 3] == 'f';
    IsPdfIffExtension(name);
  }

  /** Neither a renamed form `{id}.pdf` nor the portal's `CtrlPdf.pdf` survives the cleanup, so every form found later was downloaded by this run. */
  lemma NoStaleFormSurvives(names: set<string>, id: string)
    ensures PdfName(id) !in Kept(names)
    ensures Downloaded !in Kept(names)
  {
    RenamedFormIsPdf(id);
    IsPdfIffExtension(Downloaded);
  }

  /** The `for f in os.listdir(descarga_dir)` loop; `listing` is what `os.listdir` returns. */
  method Cleanup(folder: Folder, listing: seq<string>)
    requires forall n :: n in listing <==> n in folder.names
    modifies folder`names
    ensures folder.names == Kept(old(folder.names))
  {
    ghost var before := folder.names;
    for i := 0 to |listing|
      invariant forall n :: n in folder.names <==> n in before && !(n in listing[..i] && IsPdf(n))
    {
      var f := listing[i];
      assert listing[..i + 1] == listing[..i] + [f];
      if EndsWith(Lower(f), ".pdf") {
        folder.Remove(f);
      }
    }
    assert listing[..|listing|] == listing;
  }

  // ---------------------------------------------------------------------------
  // The nine scripts

  datatype Entity = Asesorias | Business | EST
  datatype Phase = Login | Ingreso | Upload

  /** One of the scripts `main` runs: the phase of one entity. */
  datatype Script = Script(entity: Entity, phase: Phase)

  function EntityName(e: Entity): string {
    match e
    case Asesorias => "Asesorias"
    case Business => "Business"
    case EST => "EST"
  }

  function PhasePrefix(p: Phase): string {
    match p
    case Login => "sigo_login_"
    case Ingreso => "previred_ingreso_"
    case Upload => "sigo_upload_"
  }

  /** The file name `main` passes to `run_script`. */
  function Path(s: Script): string {
    PhasePrefix(s.phase) + EntityName(s.entity) + ".py"
  }

  lemma PathExamples()
    ensures Path(Script(Asesorias, Login)) == "sigo_login_Asesorias.py"
    ensures Path(Script(EST, Upload)) == "sigo_upload_EST.py"
  {
  }

  function EntityIndex(e: Entity): nat {
    match e
    case Asesorias => 0
    case Business => 1
    case EST => 2
  }

  function PhaseIndex(p: Phase): nat {
    match p
    case Login => 0
    case Ingreso => 1
    case Upload => 2
  }

  /** The scripts `main` runs, in its order. */
  const Scripts: seq<Script> := [
    Script(Asesorias, Login), Script(Asesorias, Ingreso), Script(Asesorias, Upload),
    Script(Business, Login), Script(Business, Ingreso), Script(Business, Upload),
    Script(EST, Login), Script(EST, Ingreso), Script(EST, Upload)]

  /** Entities run Asesorias, Business, EST; within each, login, then ingreso, then upload; and the position of each script is given by its entity and phase, so each runs once. */
  lemma ScriptsLayout()
    ensures |Scripts| == 9
    ensures forall e: Entity, p: Phase :: Scripts[3 * EntityIndex(e) + PhaseIndex(p)] == Script(e, p)
    ensures forall i :: 0 <= i < |Scripts| ==> 3 * EntityIndex(Scripts[i].entity) + PhaseIndex(Scripts[i].phase) == i
  {
    forall e: Entity, p: Phase ensures Scripts[3 * EntityIndex(e) + PhaseIndex(p)] == Script(e, p) {
      ScriptAt(e, p);
    }
    forall i | 0 <= i < |Scripts| ensures 3 * EntityIndex(Scripts[i].entity) + PhaseIndex(Scripts[i].phase) == i {
      ScriptAt(Scripts[i].entity, Scripts[i].phase);
      assert Scripts[i] == Script(Scripts[i].entity, Scripts[i].phase);
      ScriptsDistinct(i, 3 * EntityIndex(Scripts[i].entity) + PhaseIndex(Scripts[i].phase));
    }
  }

  lemma ScriptAt(e: Entity, p: Phase)
    ensures 3 * EntityIndex(e) + PhaseIndex(p) < |Scripts| && Scripts[3 * EntityIndex(e) + PhaseIndex(p)] == Script(e, p)
  {
    match e
    case Asesorias =>
    case Business =>
    case EST =>
  }

  lemma ScriptsDistinct(i: nat, j: nat)
    requires i < |Scripts| && j < |Scripts| && Scripts[i] == Scripts[j]
    ensures i == j
  {
  }

  // ---------------------------------------------------------------------------
  // Running them

  /** How a child process ends: with an exit status, or not at all because it cannot be launched. */
  datatype Launch = Exited(status: int) | LaunchFailed

  /** The lines the master writes to `automatizacion.log`. */
  datatype LogLine =
    | Cleaning
    | Begin
    | Starting(script: Script)
    | Finished(script: Script)
    | Error(script: Script, status: int)
    | End

  /** The log of one `run_script`: a non-zero status is a caught `CalledProcessError`. */
  function ScriptLog(script: Script, launch: Launch): (r: seq<LogLine>)
    ensures |r| >= 1 && r[0] == Starting(script)
    ensures |r| == 1 <==> launch.LaunchFailed?
  {
    match launch
    case LaunchFailed => [Starting(script)]
    case Exited(status) => [Starting(script), if status == 0 then Finished(script) else Error(script, status)]
  }

  datatype Run = Run(lines: seq<LogLine>, raised: bool)

  /** One `run_script` call after the calls before it: it runs only when
      none of those raised, and it raises when its script cannot be launched. */
  function Step(before: Run, script: Script, env: Script -> Launch): Run {
    if before.raised then before
    else Run(before.lines + ScriptLog(script, env(script)), env(script).LaunchFailed?)
  }

  /** The run of the first `k` of `scripts`, in order, each ending as `env` says. */
  function RunFirst(scripts: seq<Script>, env: Script -> Launch, k: nat): Run
    requires k <= |scripts|
  {
    if k == 0 then Run([], false)
    else Step(RunFirst(scripts, env, k - 1), scripts[k - 1], env)
  }

  /** Once the run has raised, the remaining scripts change nothing. */
  lemma {:induction false} RaisedStays(scripts: seq<Script>, env: Script -> Launch, j: nat, k: nat)
    requires j <= k <= |scripts| && RunFirst(scripts, env, j).raised
    ensures RunFirst(scripts, env, k) == RunFirst(scripts, env, j)
    decreases k
  {
    if j < k {
      RaisedStays(scripts, env, j, k - 1);
    }
  }

  /** The `Iniciando` lines, in order. */
  function Started(lines: seq<LogLine>): seq<Script> {
    if lines == [] then []
    else (if lines[0].Starting? then [lines[0].script] else []) + Started(lines[1..])
  }

  lemma {:induction false} StartedAppend(a: seq<LogLine>, b: seq<LogLine>)
    ensures Started(a + b) == Started(a) + Started(b)
  {
    if a != [] {
      var h := if a[0].Starting? then [a[0].script] else [];
      assert (a + b)[0] == a[0];
      assert (a + b)[1..] == a[1..] + b;
      StartedAppend(a[1..], b);
      assert Started(a) == h + Started(a[1..]);
      calc {
        Started(a + b);
        h + Started(a[1..] + b);
        h + (Started(a[1..]) + Started(b));
        (h + Started(a[1..])) + Started(b);
      }
    } else {
      assert a + b == b;
    }
  }

  /** Every `run_script` logs exactly one `Iniciando` line, for its own script. */
  lemma ScriptLogStarts(script: Script, launch: Launch)
    ensures Started(ScriptLog(script, launch)) == [script]
  {
    var r := ScriptLog(script, launch);
    assert Started(r) == [script] + Started(r[1..]);
    if |r| == 2 {
      assert Started(r[1..]) == Started(r[1..][1..]);
      assert r[1..][1..] == [];
    }
  }

  lemma TakeSnoc(scripts: seq<Script>, k: nat)
    requires k < |scripts|
    ensures scripts[..k] + [scripts[k]] == scripts[..k + 1]
  {
  }

  /** A call that runs adds its own script to the started ones; one after a raise adds nothing. */
  lemma StartedStep(before: Run, script: Script, env: Script -> Launch)
    ensures Started(Step(before, script, env).lines) ==
      if before.raised then Started(before.lines) else Started(before.lines) + [script]
  {
    if !before.raised {
      StartedAppend(before.lines, ScriptLog(script, env(script)));
      ScriptLogStarts(script, env(script));
    }
  }

  /** None of the first `k` scripts fails to launch. */
  predicate Launches(scripts: seq<Script>, env: Script -> Launch, k: nat)
    requires k <= |scripts|
  {
    forall i :: 0 <= i < k ==> !env(scripts[i]).LaunchFailed?
  }

  /** When the first `k` scripts can be launched, each of them is started, in order, whatever their exit statuses, and the run has not raised. */
  lemma {:induction false} ErrorsDoNotStopTheRun(scripts: seq<Script>, env: Script -> Launch, k: nat)
    requires k <= |scripts| && Launches(scripts, env, k)
    ensures Started(RunFirst(scripts, env, k).lines) == scripts[..k]
    ensures !RunFirst(scripts, env, k).raised
    decreases k
  {
    if k > 0 {
      var s := scripts[k - 1];
      ErrorsDoNotStopTheRun(scripts, env, k - 1);
      StartedStep(RunFirst(scripts, env, k - 1), s, env);
      TakeSnoc(scripts, k - 1);
    }
  }

  /** A script that cannot be launched ends the run: the scripts up to it are started and none after it. */
  lemma LaunchFailureStopsTheRun(scripts: seq<Script>, env: Script -> Launch, k: nat)
    requires k < |scripts| && Launches(scripts, env, k) && env(scripts[k]).LaunchFailed?
    ensures Started(RunFirst(scripts, env, |scripts|).lines) == scripts[..k + 1]
    ensures RunFirst(scripts, env, |scripts|).raised
  {
    ErrorsDoNotStopTheRun(scripts, env, k);
    StartedStep(RunFirst(scripts, env, k), scripts[k], env);
    TakeSnoc(scripts, k);
    RaisedStays(scripts, env, k + 1, |scripts|);
  }

  /** Exit statuses never change which scripts start or whether the run raises: only launch failures do. */
  lemma {:induction false} StatusesDoNotMatter(scripts: seq<Script>, env: Script -> Launch, env': Script -> Launch, k: nat)
    requires k <= |scripts|
    requires forall s: Script :: env(s).LaunchFailed? <==> env'(s).LaunchFailed?
    ensures Started(RunFirst(scripts, env, k).lines) == Started(RunFirst(scripts, env', k).lines)
    ensures RunFirst(scripts, env, k).raised == RunFirst(scripts, env', k).raised
    decreases k
  {
    if k > 0 {
      var s := scripts[k - 1];
      StatusesDoNotMatter(scripts, env, env', k - 1);
      StartedStep(RunFirst(scripts, env, k - 1), s, env);
      StartedStep(RunFirst(scripts, env', k - 1), s, env');
    }
  }

  /** The whole log of `main` when it returns or raises. */
  function MainLog(env: Script -> Launch): Run {
    var run := RunFirst(Scripts, env, |Scripts|);
    Run([Begin] + run.lines + (if run.raised then [] else [End]), run.raised)
  }

  /** The opening and closing lines of `main` start no script. */
  lemma StartedInMain(env: Script -> Launch)
    ensures Started(MainLog(env).lines) == Started(RunFirst(Scripts, env, |Scripts|).lines)
  {
    var run := RunFirst(Scripts, env, |Scripts|);
    StartedAppend([Begin], run.lines);
    StartedAppend([Begin] + run.lines, [End]);
    assert Started([Begin]) == [] && Started([End]) == [];
    assert [Begin] + run.lines + [] == [Begin] + run.lines;
  }

  /** Whenever every script can be launched, `main` starts all nine, Asesorias, Business, EST, each login before ingreso before upload, and closes the log. */
  lemma MainRunsAllNine(env: Script -> Launch)
    requires Launches(Scripts, env, |Scripts|)
    ensures !MainLog(env).raised && MainLog(env).lines[|MainLog(env).lines| - 1] == End
    ensures Started(MainLog(env).lines) == Scripts
    ensures forall e: Entity, p: Phase :: Started(MainLog(env).lines)[3 * EntityIndex(e) + PhaseIndex(p)] == Script(e, p)
  {
    ErrorsDoNotStopTheRun(Scripts, env, |Scripts|);
    StartedInMain(env);
    assert Scripts[..|Scripts|] == Scripts;
    ScriptsLayout();
  }

  /** A script of `main` that cannot be launched is the last one started, and `main` raises without its closing line. */
  lemma MainStopsAtLaunchFailure(env: Script -> Launch, k: nat)
    requires k < |Scripts| && Launches(Scripts, env, k) && env(Scripts[k]).LaunchFailed?
    ensures MainLog(env).raised && End !in MainLog(env).lines
    ensures Started(MainLog(env).lines) == Scripts[..k + 1]
  {
    LaunchFailureStopsTheRun(Scripts, env, k);
    StartedInMain(env);
    NoEndInRun(Scripts, env, |Scripts|);
  }

  /** The lines of the scripts never include the closing line. */
  lemma {:induction false} NoEndInRun(scripts: seq<Script>, env: Script -> Launch, k: nat)
    requires k <= |scripts|
    ensures End !in RunFirst(scripts, env, k).lines
    decreases k
  {
    if k > 0 {
      NoEndInRun(scripts, env, k - 1);
    }
  }

  /** The master's log sink. */
  class Logger {
    var lines: seq<LogLine>

    constructor ()
      ensures lines == []
    {
      lines := [];
    }

    method Log(line: LogLine)
      modifies this`lines
      ensures lines == old(lines) + [line]
    {
      lines := lines + [line];
    }
  }

  /** `run_script`; `raised` is the exception it lets through. */
  method RunScript(log: Logger, script: Script, env: Script -> Launch) returns (raised: bool)
    modifies log`lines
    ensures log.lines == old(log.lines) + ScriptLog(script, env(script))
    ensures raised == env(script).LaunchFailed?
  {
    log.Log(Starting(script));
    var launch := env(script);
    match launch {
      case LaunchFailed =>
        return true;
      case Exited(status) =>
        if status == 0 {
          log.Log(Finished(script));
        } else {
          log.Log(Error(script, status));
        }
        return false;
    }
  }

  /** Call `k` of `main` under exception propagation: once a call has
      raised, the calls after it are not reached. `start` is the log just
      after the opening line. */
  method RunUnlessRaised(log: Logger, script: Script, env: Script -> Launch, raised: bool,
                         ghost start: seq<LogLine>, ghost k: nat) returns (raisedAfter: bool)
    requires k < |Scripts| && script == Scripts[k]
    requires log.lines == start + RunFirst(Scripts, env, k).lines && raised == RunFirst(Scripts, env, k).raised
    modifies log`lines
    ensures log.lines == start + RunFirst(Scripts, env, k + 1).lines
    ensures raisedAfter == RunFirst(Scripts, env, k + 1).raised
  {
    raisedAfter := raised;
    if !raised {
      raisedAfter := RunScript(log, script, env);
      AppendAssoc(start, RunFirst(Scripts, env, k).lines, ScriptLog(script, env(script)));
    }
  }

  /** `main`'s closing line, written only when no call raised. */
  lemma MainLogCloses(env: Script -> Launch, before: seq<LogLine>, lines: seq<LogLine>)
    requires lines == before + [Begin] + RunFirst(Scripts, env, |Scripts|).lines
    ensures RunFirst(Scripts, env, |Scripts|).raised ==> lines == before + MainLog(env).lines
    ensures !RunFirst(Scripts, env, |Scripts|).raised ==> lines + [End] == before + MainLog(env).lines
    ensures MainLog(env).raised == RunFirst(Scripts, env, |Scripts|).raised
  {
    var run := RunFirst(Scripts, env, |Scripts|);
    AppendAssoc(before, [Begin], run.lines);
    AppendAssoc(before, [Begin] + run.lines, [End]);
  }

  /** `main`: the nine calls, in the source's order; `Scripts` holds the names it passes. */
  method RunMain(log: Logger, env: Script -> Launch) returns (raised: bool)
    modifies log`lines
    ensures log.lines == old(log.lines) + MainLog(env).lines
    ensures raised == MainLog(env).raised
  {
    log.Log(Begin);
    ghost var start := log.lines;
    raised := false;
    ghost var k := 0;
    raised := RunUnlessRaised(log, Script(Asesorias, Login), env, raised, start, k);  // sigo_login_Asesorias.py
    k := k + 1;
    raised := RunUnlessRaised(log, Script(Asesorias, Ingreso), env, raised, start, k);  // previred_ingreso_Asesorias.py
    k := k + 1;
    raised := RunUnlessRaised(log, Script(Asesorias, Upload), env, raised, start, k);  // sigo_upload_Asesorias.py
    k := k + 1;
    raised := RunUnlessRaised(log, Script(Business, Login), env, raised, start, k);  // sigo_login_Business.py
    k := k + 1;
    raised := RunUnlessRaised(log, Script(Business, Ingreso), env, raised, start, k);  // previred_ingreso_Business.py
    k := k + 1;
    raised := RunUnlessRaised(log, Script(Business, Upload), env, raised, start, k);  // sigo_upload_Business.py
    k := k + 1;
    raised := RunUnlessRaised(log, Script(EST, Login), env, raised, start, k);  // sigo_login_EST.py
    k := k + 1;
    raised := RunUnlessRaised(log, Script(EST, Ingreso), env, raised, start, k);  // previred_ingreso_EST.py
    k := k + 1;
    raised := RunUnlessRaised(log, Script(EST, Upload), env, raised, start, k);  // sigo_upload_EST.py
    k := k + 1;
    assert k == |Scripts|;
    MainLogCloses(env, old(log.lines), log.lines);
    if !raised {
      log.Log(End);
    }
  }

  /** Running `script_maestro.py`: the cleanup at import time, then `main`. */
  method Automate(folder: Folder, listing: seq<string>, log: Logger, env: Script -> Launch) returns (raised: bool)
    requires forall n :: n in listing <==> n in folder.names
    modifies folder`names, log`lines
    ensures folder.names == Kept(old(folder.names))
    ensures log.lines == old(log.lines) + [Cleaning] + MainLog(env).lines
    ensures raised == MainLog(env).raised
  {
    log.Log(Cleaning);
    Cleanup(folder, listing);
    raised := RunMain(log, env);
  }
}
