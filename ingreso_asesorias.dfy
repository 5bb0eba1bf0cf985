/** `previred_ingreso_Asesorias.py`: the same steps as the EST script, written
    inline in the `for` loop of `main`. Only the final Continuar and Ingreso
    Manual are guarded, so any other failure (a missing key, a date that does
    not parse, a step that times out, a failed rename, a failed `back()`) leaves
    the loop, and no later record is processed. The driver is quit once, in
    `finally`. */
module IngresoAsesorias {
  import opened Wrappers
  import opened Browser
  import opened Downloads
  import opened Submission

  /** Final Continuar, with a `back()` that runs inside the `except` and so
      ends the run when it fails itself; then Ingreso Manual, whose failure is
      only logged. */
  function Recovery(failing: set<Step>): Progress {
    Chain(Retry(FinalContinue, Back, failing), Try(ClickManualEntry, ""))
  }

  /** One pass of the loop body. A `Failed` outcome is an exception that leaves the loop. */
  function RecordRun(reg: Record, env: Env, names: set<string>): RecordResult {
    var dl := Download(reg, env, names);
    if dl.progress.stop.Some? then RecordResult(dl.progress.actions, Failed(dl.progress.stop.value), dl.names)
    else
      var rec := Recovery(env.failing);
      if rec.stop.Some? then RecordResult(dl.progress.actions + rec.actions, Failed(rec.stop.value), dl.names)
      else RecordResult(dl.progress.actions + rec.actions, Completed(dl.renamed, ClickManualEntry !in env.failing), dl.names)
  }

  /** What the loop does with one record, given the folder the records before it left. */
  type Body = (Record, Env, set<string>) -> RecordResult

  /** The records processed so far and, once one failed, the stage that ended the run. */
  datatype Log = Log(actions: seq<Action>, outcomes: seq<Outcome>, names: set<string>, aborted: Option<Step>)

  /** The `for` loop over the first |regs| records: once a record fails, the later ones are not touched. */
  function Queue(body: Body, regs: seq<Record>, envs: seq<Env>, names: set<string>): Log
    requires |envs| == |regs|
    decreases |regs|
  {
    if regs == [] then Log([], [], names, None)
    else
      var n := |regs| - 1;
      var prev := Queue(body, regs[..n], envs[..n], names);
      if prev.aborted.Some? then prev
      else
        Extend(prev, body(regs[n], envs[n], prev.names))
  }

  /** The log once one more record has been processed. */
  function Extend(prev: Log, r: RecordResult): Log {
    Log(prev.actions + r.actions, prev.outcomes + [r.outcome], r.names,
        if r.outcome.Failed? then Some(r.outcome.stage) else None)
  }

  /** What `QueueStopsAtFirstFailedRecord` states, for one log of `count` records. */
  predicate StopsAtFirstFailedRecord(q: Log, count: nat) {
    |q.outcomes| <= count &&
    (forall k :: 0 <= k < |q.outcomes| - 1 ==> q.outcomes[k].Completed?) &&
    (q.aborted.None? <==> |q.outcomes| == count && forall k :: 0 <= k < |q.outcomes| ==> q.outcomes[k].Completed?) &&
    (q.aborted.Some? ==> |q.outcomes| > 0 && q.outcomes[|q.outcomes| - 1] == Failed(q.aborted.value))
  }

  lemma ExtendStops(prev: Log, r: RecordResult, count: nat)
    requires StopsAtFirstFailedRecord(prev, count) && prev.aborted.None?
    ensures StopsAtFirstFailedRecord(Extend(prev, r), count + 1)
  {
    var q := Extend(prev, r);
    assert q.outcomes == prev.outcomes + [r.outcome];
    assert forall k :: 0 <= k < |prev.outcomes| ==> q.outcomes[k] == prev.outcomes[k];
    assert q.outcomes[|prev.outcomes|] == r.outcome;
  }

  /** `main` once the JSON is loaded and the driver built. */
  function Run(setupFailing: set<Step>, regs: seq<Record>, envs: seq<Env>, names: set<string>): Log
    requires |envs| == |regs|
  {
    var st := Setup(setupFailing);
    if st.stop.Some? then Log(st.actions, [], names, st.stop)
    else
      var q := Queue(RecordRun, regs, envs, names);
      Log(st.actions + q.actions, q.outcomes, q.names, q.aborted)
  }

  /** The run goes on exactly while records complete: every outcome but the
      last is `Completed`; the run was aborted exactly when the last one
      failed, and then it names the stage; and when nothing failed, every
      record got an outcome. */
  lemma {:induction false} QueueStopsAtFirstFailedRecord(body: Body, regs: seq<Record>, envs: seq<Env>, names: set<string>)
    requires |envs| == |regs|
    ensures StopsAtFirstFailedRecord(Queue(body, regs, envs, names), |regs|)
    decreases |regs|
  {
    if regs != [] {
      var n := |regs| - 1;
      var prev := Queue(body, regs[..n], envs[..n], names);
      QueueStopsAtFirstFailedRecord(body, regs[..n], envs[..n], names);
      if prev.aborted.None? {
        ExtendStops(prev, body(regs[n], envs[n], prev.names), n);
      }
    }
  }

  /** Records after a failed one are never processed: the outcome of record
      `i` is what the loop body makes of it, and a failure there leaves
      exactly i + 1 outcomes. */
  lemma {:induction false} QueueOutcomeAt(body: Body, regs: seq<Record>, envs: seq<Env>, names: set<string>, i: nat)
    requires |envs| == |regs| && i < |regs| && i < |Queue(body, regs, envs, names).outcomes|
    ensures Queue(body, regs[..i], envs[..i], names).aborted.None?
    ensures Queue(body, regs, envs, names).outcomes[i] ==
      body(regs[i], envs[i], Queue(body, regs[..i], envs[..i], names).names).outcome
    ensures Queue(body, regs, envs, names).outcomes[i].Failed? ==> |Queue(body, regs, envs, names).outcomes| == i + 1
    decreases |regs|
  {
    var n := |regs| - 1;
    var prev := Queue(body, regs[..n], envs[..n], names);
    QueueStopsAtFirstFailedRecord(body, regs[..n], envs[..n], names);
    QueueUnfold(body, regs, envs, names);
    assert |prev.outcomes| <= n;
    if prev.aborted.Some? {
      assert i < |prev.outcomes|;
      QueueOutcomeAt(body, regs[..n], envs[..n], names, i);
      assert regs[..n][..i] == regs[..i] && envs[..n][..i] == envs[..i];
    } else {
      var r := body(regs[n], envs[n], prev.names);
      ExtendOutcomes(prev, r);
      if i < n {
        QueueOutcomeAt(body, regs[..n], envs[..n], names, i);
        assert regs[..n][..i] == regs[..i] && envs[..n][..i] == envs[..i];
      } else {
        assert regs[..n] == regs[..i] && envs[..n] == envs[..i];
      }
    }
  }

  lemma QueueUnfold(body: Body, regs: seq<Record>, envs: seq<Env>, names: set<string>)
    requires |envs| == |regs| && regs != []
    ensures var n := |regs| - 1;
      var prev := Queue(body, regs[..n], envs[..n], names);
      Queue(body, regs, envs, names) == if prev.aborted.Some? then prev else Extend(prev, body(regs[n], envs[n], prev.names))
  {
  }

  lemma ExtendOutcomes(prev: Log, r: RecordResult)
    ensures |Extend(prev, r).outcomes| == |prev.outcomes| + 1
    ensures forall k :: 0 <= k < |prev.outcomes| ==> Extend(prev, r).outcomes[k] == prev.outcomes[k]
    ensures Extend(prev, r).outcomes[|prev.outcomes|] == r.outcome
  {
  }

  /** The recovery: `back()` runs exactly when the final Continuar failed, at
      most once; a failed `back()` ends the run, a failed Ingreso Manual does not. */
  lemma RecoveryFallsBackOnce(failing: set<Step>)
    ensures StepsOf(Recovery(failing).actions) ==
      if FinalContinue !in failing then [FinalContinue, ClickManualEntry]
      else if Back in failing then [FinalContinue, Back]
      else [FinalContinue, Back, ClickManualEntry]
    ensures Recovery(failing).stop.Some? <==> FinalContinue in failing && Back in failing
  {
  }

  /** A record that reaches the rename and whose recovery does not fail
      completes, even when its download is missing or Ingreso Manual fails. */
  lemma RecordCompletes(reg: Record, env: Env, names: set<string>)
    requires Download(reg, env, names).progress.stop.None?
    requires !(FinalContinue in env.failing && Back in env.failing)
    ensures RecordRun(reg, env, names).outcome == Completed(Download(reg, env, names).renamed, ClickManualEntry !in env.failing)
  {
  }

  /** A record without a RUT or an end date raises `KeyError`, which ends the run. */
  lemma MissingFieldAbortsRun(reg: Record, env: Env, names: set<string>)
    requires RutKey !in reg || DateKey !in reg
    ensures RecordRun(reg, env, names) == RecordResult([], Failed(ReadRecord), names)
  {
    MissingFieldEndsBeforeInteraction(reg, env, names);
  }

  /** An empty queue touches no record. */
  lemma EmptyQueue(setupFailing: set<Step>, names: set<string>)
    requires Setup(setupFailing).stop.None?
    ensures Run(setupFailing, [], [], names) == Log(Setup(setupFailing).actions, [], names, None)
  {
    assert Setup(setupFailing).actions + [] == Setup(setupFailing).actions;
  }

  /** Once aborted, a prefix of the queue is the whole run. */
  lemma {:induction false} AbortedQueueStays(body: Body, regs: seq<Record>, envs: seq<Env>, names: set<string>, i: nat)
    requires |envs| == |regs| && i <= |regs| && Queue(body, regs[..i], envs[..i], names).aborted.Some?
    ensures Queue(body, regs, envs, names) == Queue(body, regs[..i], envs[..i], names)
    decreases |regs| - i
  {
    if i < |regs| {
      assert regs[..i + 1][..i] == regs[..i] && envs[..i + 1][..i] == envs[..i];
      AbortedQueueStays(body, regs, envs, names, i + 1);
    } else {
      assert regs[..i] == regs && envs[..i] == envs;
    }
  }

  /** Steps i) and j): the final Continuar, its `back()` fallback, and Ingreso Manual. */
  method Recover(s: Session, failing: set<Step>) returns (stop: Option<Step>, reentered: bool)
    modifies s`trace
    ensures s.trace == old(s.trace) + Recovery(failing).actions
    ensures stop == Recovery(failing).stop
    ensures reentered <==> stop.None? && ClickManualEntry !in failing
  {
    var ok := s.Perform(FinalContinue, "", failing);
    if !ok {
      ok := s.Perform(Back, "", failing);
      if !ok {
        return Some(Back), false;
      }
    }
    reentered := s.Perform(ClickManualEntry, "", failing);
    stop := None;
  }

  method ProcessRecord(s: Session, f: Folder, reg: Record, env: Env) returns (outcome: Outcome)
    modifies s`trace, f`names
    ensures s.trace == old(s.trace) + RecordRun(reg, env, old(f.names)).actions
    ensures outcome == RecordRun(reg, env, old(f.names)).outcome
    ensures f.names == RecordRun(reg, env, old(f.names)).names
  {
    ghost var t0, dl := s.trace, Download(reg, env, f.names);
    var stop, renamed := PrepareRecord(s, f, reg, env);
    if stop.Some? {
      return Failed(stop.value);
    }
    var reentered;
    stop, reentered := Recover(s, env.failing);
    AppendAssoc(t0, dl.progress.actions, Recovery(env.failing).actions);
    if stop.Some? {
      return Failed(stop.value);
    }
    return Completed(renamed, reentered);
  }

  /** Setup without any guard of its own: a failure is caught only by the `try` around the whole run. */
  method OpenSession(s: Session, failing: set<Step>) returns (ok: bool)
    modifies s`trace
    ensures s.trace == old(s.trace) + Setup(failing).actions
    ensures ok == Setup(failing).stop.None?
  {
    ok := s.Perform(Login, "", failing);
    if !ok { return; }
    ok := s.Perform(SelectCompany, "", failing);
    if !ok { return; }
    ok := s.Perform(OpenMovement, "", failing);
    if !ok { return; }
    ok := s.Perform(OpenManualEntry, "", failing);
  }

  /** The `for` loop of `main`: the first failed record leaves the loop. */
  method ProcessQueue(s: Session, f: Folder, regs: seq<Record>, envs: seq<Env>) returns (outcomes: seq<Outcome>, aborted: Option<Step>)
    requires |envs| == |regs|
    modifies s`trace, f`names
    ensures s.trace == old(s.trace) + Queue(RecordRun, regs, envs, old(f.names)).actions
    ensures outcomes == Queue(RecordRun, regs, envs, old(f.names)).outcomes
    ensures aborted == Queue(RecordRun, regs, envs, old(f.names)).aborted
    ensures f.names == Queue(RecordRun, regs, envs, old(f.names)).names
  {
    ghost var t0, n0 := s.trace, f.names;
    outcomes, aborted := [], None;
    var i := 0;
    ghost var log := Queue(RecordRun, [], [], n0);
    while i < |regs|
      invariant 0 <= i <= |regs|
      invariant log == Queue(RecordRun, regs[..i], envs[..i], n0) && log.aborted.None?
      invariant s.trace == t0 + log.actions
      invariant outcomes == log.outcomes
      invariant f.names == log.names
    {
      ghost var r := RecordRun(regs[i], envs[i], log.names);
      assert regs[..i + 1][..i] == regs[..i] && envs[..i + 1][..i] == envs[..i];
      ghost var before := s.trace;
      var o := ProcessRecord(s, f, regs[i], envs[i]);
      AppendAssoc(t0, log.actions, r.actions);
      outcomes := outcomes + [o];
      log := Extend(log, r);
      i := i + 1;
      if o.Failed? {
        AbortedQueueStays(RecordRun, regs, envs, n0, i);
        aborted := Some(o.stage);
        return;
      }
    }
    assert regs[..i] == regs && envs[..i] == envs;
  }

  /** `main`: whatever happens, the driver is quit exactly once, in `finally`. */
  method RunSession(s: Session, f: Folder, setupFailing: set<Step>, regs: seq<Record>, envs: seq<Env>) returns (outcomes: seq<Outcome>, aborted: Option<Step>)
    requires |envs| == |regs|
    modifies s`trace, s`quits, f`names
    ensures s.trace == old(s.trace) + Run(setupFailing, regs, envs, old(f.names)).actions
    ensures outcomes == Run(setupFailing, regs, envs, old(f.names)).outcomes
    ensures aborted == Run(setupFailing, regs, envs, old(f.names)).aborted
    ensures f.names == Run(setupFailing, regs, envs, old(f.names)).names
    ensures s.quits == old(s.quits) + 1
  {
    ghost var t0 := s.trace;
    outcomes := [];
    var ok := OpenSession(s, setupFailing);
    if ok {
      outcomes, aborted := ProcessQueue(s, f, regs, envs);
      AppendAssoc(t0, Setup(setupFailing).actions, Queue(RecordRun, regs, envs, old(f.names)).actions);
    } else {
      aborted := Setup(setupFailing).stop;
    }
    s.Quit();
  }
}
