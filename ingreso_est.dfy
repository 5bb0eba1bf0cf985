/** `previred_ingreso_EST.py`: failures are isolated per record. Every step of
    `procesar_registro` that fails makes it return, and the run goes on with the
    next record; the setup functions quit the driver themselves before
    re-raising, and `main` quits it again in `finally`. */
module IngresoEst {
  import opened Wrappers
  import opened Browser
  import opened Downloads
  import opened Submission

  /** Final Continuar with a `back()` fallback whose own failure is only logged, then Ingreso Manual. */
  function Recovery(failing: set<Step>): Progress {
    Chain(Fallback(FinalContinue, Back, failing), Try(ClickManualEntry, ""))
  }

  /** `procesar_registro` */
  function RecordRun(reg: Record, env: Env, names: set<string>): RecordResult {
    var dl := Download(reg, env, names);
    if dl.progress.stop.Some? then RecordResult(dl.progress.actions, Failed(dl.progress.stop.value), dl.names)
    else RecordResult(dl.progress.actions + Recovery(env.failing).actions,
                      Completed(dl.renamed, ClickManualEntry !in env.failing), dl.names)
  }

  /** The records processed so far: interactions, outcomes, and the folder they leave. */
  datatype Log = Log(actions: seq<Action>, outcomes: seq<Outcome>, names: set<string>)

  /** What the loop does with one record, given the folder the records before it left. */
  type Body = (Record, Env, set<string>) -> RecordResult

  /** The `for` loop of `main` over the first |regs| records. */
  function Queue(body: Body, regs: seq<Record>, envs: seq<Env>, names: set<string>): Log
    requires |envs| == |regs|
    decreases |regs|
  {
    if regs == [] then Log([], [], names)
    else
      var n := |regs| - 1;
      var prev := Queue(body, regs[..n], envs[..n], names);
      var r := body(regs[n], envs[n], prev.names);
      Log(prev.actions + r.actions, prev.outcomes + [r.outcome], r.names)
  }

  /** `main` once the JSON is loaded and the driver built: setup, then every record. */
  function Run(setupFailing: set<Step>, regs: seq<Record>, envs: seq<Env>, names: set<string>): Log
    requires |envs| == |regs|
  {
    var st := Setup(setupFailing);
    if st.stop.Some? then Log(st.actions, [], names)
    else
      var q := Queue(RecordRun, regs, envs, names);
      Log(st.actions + q.actions, q.outcomes, q.names)
  }

  /** One more record extends the log of the records before it. */
  lemma QueueStep(body: Body, regs: seq<Record>, envs: seq<Env>, names: set<string>, i: nat)
    requires |envs| == |regs| && i < |regs|
    ensures var prev := Queue(body, regs[..i], envs[..i], names);
      var r := body(regs[i], envs[i], prev.names);
      Queue(body, regs[..i + 1], envs[..i + 1], names) == Log(prev.actions + r.actions, prev.outcomes + [r.outcome], r.names)
  {
    assert regs[..i + 1][..i] == regs[..i] && envs[..i + 1][..i] == envs[..i];
  }

  /** Isolation: every record of the queue gets an outcome, one per record, in queue order. */
  lemma {:induction false} QueueAttemptsEveryRecord(body: Body, regs: seq<Record>, envs: seq<Env>, names: set<string>)
    requires |envs| == |regs|
    ensures |Queue(body, regs, envs, names).outcomes| == |regs|
    decreases |regs|
  {
    if regs != [] {
      var n := |regs| - 1;
      QueueAttemptsEveryRecord(body, regs[..n], envs[..n], names);
    }
  }

  /** Isolation: the outcome of record `i` is what `procesar_registro` makes of
      that record alone, in the folder the records before it left; whatever
      happened to those records, it is attempted. */
  lemma {:induction false} QueueOutcomeAt(body: Body, regs: seq<Record>, envs: seq<Env>, names: set<string>, i: nat)
    requires |envs| == |regs| && i < |regs|
    ensures |Queue(body, regs, envs, names).outcomes| == |regs|
    ensures Queue(body, regs, envs, names).outcomes[i] ==
      body(regs[i], envs[i], Queue(body, regs[..i], envs[..i], names).names).outcome
    decreases |regs|
  {
    var n := |regs| - 1;
    QueueAttemptsEveryRecord(body, regs, envs, names);
    QueueAttemptsEveryRecord(body, regs[..n], envs[..n], names);
    if i < n {
      QueueOutcomeAt(body, regs[..n], envs[..n], names, i);
      assert regs[..n][..i] == regs[..i] && envs[..n][..i] == envs[..i];
    } else {
      assert regs[..n] == regs[..i] && envs[..n] == envs[..i];
    }
  }

  /** The recovery after a record: Final Continuar, `back()` exactly when it
      failed, and Ingreso Manual in every case. */
  lemma RecoveryFallsBackOnce(failing: set<Step>)
    ensures StepsOf(Recovery(failing).actions) ==
      if FinalContinue in failing then [FinalContinue, Back, ClickManualEntry] else [FinalContinue, ClickManualEntry]
    ensures Recovery(failing).stop.None?
  {
  }

  /** A record that failed before the rename ends there: neither the final
      Continuar nor Ingreso Manual is attempted for it, and its stage is a step it reached. */
  lemma FailedRecordSkipsRecovery(reg: Record, env: Env, names: set<string>)
    requires RecordRun(reg, env, names).outcome.Failed?
    ensures RecordRun(reg, env, names).actions == Download(reg, env, names).progress.actions
    ensures Download(reg, env, names).progress.stop == Some(RecordRun(reg, env, names).outcome.stage)
    ensures !Ran(RecordRun(reg, env, names).actions, FinalContinue)
    ensures !Ran(RecordRun(reg, env, names).actions, ClickManualEntry)
  {
    DownloadOrdered(reg, env, names);
    NotRanOutside(Download(reg, env, names).progress.actions, 5, 20, FinalContinue);
    NotRanOutside(Download(reg, env, names).progress.actions, 5, 20, ClickManualEntry);
  }

  /** A record that got through the rename always runs the recovery, after every step of its form. */
  lemma CompletedRecordRecovers(reg: Record, env: Env, names: set<string>)
    requires RecordRun(reg, env, names).outcome.Completed?
    ensures Download(reg, env, names).progress.stop.None?
    ensures RecordRun(reg, env, names).actions == Download(reg, env, names).progress.actions + Recovery(env.failing).actions
    ensures RecordRun(reg, env, names).outcome.reentered <==> ClickManualEntry !in env.failing
    ensures RecordRun(reg, env, names).outcome.renamed == Download(reg, env, names).renamed
  {
  }

  /** An empty queue: the session is opened and closed, and no record is touched. */
  lemma EmptyQueue(setupFailing: set<Step>, names: set<string>)
    ensures Run(setupFailing, [], [], names) == Log(Setup(setupFailing).actions, [], names)
  {
    assert Setup(setupFailing).actions + [] == Setup(setupFailing).actions;
  }

  /** A failed setup step ends the run before any record: no outcome, no interaction after the failing step. */
  lemma SetupFailureProcessesNothing(setupFailing: set<Step>, regs: seq<Record>, envs: seq<Env>, names: set<string>)
    requires |envs| == |regs| && Setup(setupFailing).stop.Some?
    ensures Run(setupFailing, regs, envs, names).outcomes == []
    ensures Run(setupFailing, regs, envs, names).names == names
    ensures !Ran(Run(setupFailing, regs, envs, names).actions, EnterRut)
  {
    var st := Setup(setupFailing);
    SetupOrdered(setupFailing);
    NotRanOutside(st.actions, 0, 4, EnterRut);
  }

  /** The final Continuar, `back()` when it fails (a failed `back()` is only
      logged), and Ingreso Manual, whose failure makes `procesar_registro` return. */
  method Recover(s: Session, failing: set<Step>) returns (reentered: bool)
    modifies s`trace
    ensures s.trace == old(s.trace) + Recovery(failing).actions
    ensures reentered <==> ClickManualEntry !in failing
  {
    var ok := s.Perform(FinalContinue, "", failing);
    if !ok {
      var _ := s.Perform(Back, "", failing);
    }
    reentered := s.Perform(ClickManualEntry, "", failing);
  }

  method ProcessRecord(s: Session, f: Folder, reg: Record, env: Env) returns (outcome: Outcome)
    modifies s`trace, f`names
    ensures s.trace == old(s.trace) + RecordRun(reg, env, old(f.names)).actions
    ensures outcome == RecordRun(reg, env, old(f.names)).outcome
    ensures f.names == RecordRun(reg, env, old(f.names)).names
  {
    ghost var t0, dl := s.trace, Download(reg, env, f.names);
    var stop, renamed := PrepareRecord(s, f, reg, env);
    if stop.Some? {
      return Failed(stop.value);
    }
    var reentered := Recover(s, env.failing);
    AppendAssoc(t0, dl.progress.actions, Recovery(env.failing).actions);
    return Completed(renamed, reentered);
  }

  /** A setup step: on failure the driver is quit before the exception propagates. */
  method SetupStep(s: Session, step: Step, failing: set<Step>) returns (ok: bool)
    modifies s`trace, s`quits
    ensures s.trace == old(s.trace) + Do(step, "", failing).actions
    ensures ok == Do(step, "", failing).stop.None?
    ensures s.quits == if ok then old(s.quits) else old(s.quits) + 1
  {
    ok := s.Perform(step, "", failing);
    if !ok {
      s.Quit();
    }
  }

  method OpenSession(s: Session, failing: set<Step>) returns (ok: bool)
    modifies s`trace, s`quits
    ensures s.trace == old(s.trace) + Setup(failing).actions
    ensures ok == Setup(failing).stop.None?
    ensures s.quits == if ok then old(s.quits) else old(s.quits) + 1
  {
    ok := SetupStep(s, Login, failing);
    if !ok { return; }
    ok := SetupStep(s, SelectCompany, failing);
    if !ok { return; }
    ok := SetupStep(s, OpenMovement, failing);
    if !ok { return; }
    ok := SetupStep(s, OpenManualEntry, failing);
  }

  /** The `for` loop of `main`: every record is attempted, whatever happened to the ones before it. */
  method ProcessQueue(s: Session, f: Folder, regs: seq<Record>, envs: seq<Env>) returns (outcomes: seq<Outcome>)
    requires |envs| == |regs|
    modifies s`trace, f`names
    ensures s.trace == old(s.trace) + Queue(RecordRun, regs, envs, old(f.names)).actions
    ensures outcomes == Queue(RecordRun, regs, envs, old(f.names)).outcomes
    ensures f.names == Queue(RecordRun, regs, envs, old(f.names)).names
  {
    ghost var t0, n0 := s.trace, f.names;
    outcomes := [];
    var i := 0;
    ghost var log := Queue(RecordRun, [], [], n0);
    while i < |regs|
      invariant 0 <= i <= |regs|
      invariant log == Queue(RecordRun, regs[..i], envs[..i], n0)
      invariant s.trace == t0 + log.actions
      invariant outcomes == log.outcomes
      invariant f.names == log.names
    {
      ghost var r := RecordRun(regs[i], envs[i], log.names);
      QueueStep(RecordRun, regs, envs, n0, i);
      ghost var before := s.trace;
      var o := ProcessRecord(s, f, regs[i], envs[i]);
      assert s.trace == before + r.actions;
      AppendAssoc(t0, log.actions, r.actions);
      outcomes := outcomes + [o];
      log := Log(log.actions + r.actions, log.outcomes + [r.outcome], r.names);
      i := i + 1;
    }
    assert regs[..i] == regs && envs[..i] == envs;
  }

  /** `main`: the driver is quit once in `finally`, and once more by the setup step that failed. */
  method RunSession(s: Session, f: Folder, setupFailing: set<Step>, regs: seq<Record>, envs: seq<Env>) returns (outcomes: seq<Outcome>)
    requires |envs| == |regs|
    modifies s`trace, s`quits, f`names
    ensures s.trace == old(s.trace) + Run(setupFailing, regs, envs, old(f.names)).actions
    ensures outcomes == Run(setupFailing, regs, envs, old(f.names)).outcomes
    ensures f.names == Run(setupFailing, regs, envs, old(f.names)).names
    ensures s.quits == old(s.quits) + if Setup(setupFailing).stop.Some? then 2 else 1
  {
    ghost var t0, n0 := s.trace, f.names;
    outcomes := [];
    var ok := OpenSession(s, setupFailing);
    if ok {
      outcomes := ProcessQueue(s, f, regs, envs);
      AppendAssoc(t0, Setup(setupFailing).actions, Queue(RecordRun, regs, envs, n0).actions);
    }
    s.Quit();
  }
}
