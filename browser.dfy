/** The browser as the scripts see it. Every interaction (a wait followed by a
    click, a select, a key press, a script execution) is one abstract step whose
    outcome is an input: it succeeds unless it is in the `failing` set supplied
    for the record being processed. What the step does to the page is not
    simulated; only the order of the steps, their arguments and their outcomes
    are. */
module Browser {
  import opened Wrappers

  /** A step, identified by its position in the order the scripts perform
      them. Only the named steps below occur. */
  datatype Step = Step(rank: nat)

  // Previred: session setup.
  const Login: Step := Step(0)
  const SelectCompany: Step := Step(1)
  const OpenMovement: Step := Step(2)
  const OpenManualEntry: Step := Step(3)

  // Previred: one record of the queue.
  const ReadRecord: Step := Step(4)
  const EnterRut: Step := Step(5)
  const SelectHealth: Step := Step(6)
  const SelectMovement: Step := Step(7)
  const OpenDateField: Step := Step(8)
  const ParseDueDate: Step := Step(9)
  const SelectYear: Step := Step(10)
  const SelectMonth: Step := Step(11)
  const ClickDay: Step := Step(12)
  const FocusContinue: Step := Step(13)
  const ClickContinue: Step := Step(14)
  const JsClickContinue: Step := Step(15)
  const CheckDeclaration: Step := Step(16)
  const SecondContinue: Step := Step(17)
  const ClickPrint: Step := Step(18)
  const RenamePdf: Step := Step(19)
  const FinalContinue: Step := Step(20)
  const Back: Step := Step(21)
  const ClickManualEntry: Step := Step(22)

  // SIGO: session setup and one upload.
  const SigoLogin: Step := Step(23)
  const OpenRequests: Step := Step(24)
  const FindFilter: Step := Step(25)
  const FilterDisplayed: Step := Step(26)
  const ClickFilterLabel: Step := Step(27)
  const ForceFilterLabel: Step := Step(28)
  const WaitFilter: Step := Step(29)
  const ClearFilter: Step := Step(30)
  const JsClearFilter: Step := Step(31)
  const TypeFilter: Step := Step(32)
  const FindIdCell: Step := Step(33)
  const ClickRow: Step := Step(34)
  const WaitUploadInput: Step := Step(35)
  const PdfExists: Step := Step(36)
  const SendFile: Step := Step(37)
  const ClickSave: Step := Step(38)
  const ClickAdvance: Step := Step(39)
  const WaitFilterAgain: Step := Step(40)
  const ClearFilterAgain: Step := Step(41)
  const JsClearFilterAgain: Step := Step(42)

  /** One interaction: the step and the text it sends (a value typed, an option chosen, an XPath). */
  datatype Action = Action(step: Step, arg: string)

  /** The interactions done so far and, when a step failed in a way that ends
      the current unit of work, the stage where it ended. */
  datatype Progress = Progress(actions: seq<Action>, stop: Option<Step>)

  /** Nothing done yet. */
  const Done := Progress([], None)

  /** Ending at a stage without any interaction (a missing key, a date that does not parse). */
  function Halt(stage: Step): Progress {
    Progress([], Some(stage))
  }

  /** One interaction whose failure ends the unit of work. */
  function Do(step: Step, arg: string, failing: set<Step>): Progress {
    Progress([Action(step, arg)], if step in failing then Some(step) else None)
  }

  /** One interaction whose failure is only logged. */
  function Try(step: Step, arg: string): Progress {
    Progress([Action(step, arg)], None)
  }

  /** An interaction that is retried once by `retry` when it fails; only a failed retry ends the unit of work. */
  function Retry(step: Step, retry: Step, failing: set<Step>): Progress {
    if step in failing then Progress([Action(step, ""), Action(retry, "")], if retry in failing then Some(retry) else None)
    else Try(step, "")
  }

  /** An interaction with a fallback whose own failure is only logged: the unit of work goes on either way. */
  function Fallback(step: Step, fallback: Step, failing: set<Step>): Progress {
    if step in failing then Progress([Action(step, ""), Action(fallback, "")], None)
    else Try(step, "")
  }

  /** `q` runs only when `p` did not stop. */
  function Chain(p: Progress, q: Progress): Progress {
    if p.stop.Some? then p else Progress(p.actions + q.actions, q.stop)
  }

  /** The position of a step in the order the scripts perform them. */
  function Rank(s: Step): nat {
    s.rank
  }

  /** Steps come in their fixed order, so none is repeated. */
  predicate Ascending(a: seq<Action>) {
    forall i, j :: 0 <= i < j < |a| ==> Rank(a[i].step) < Rank(a[j].step)
  }

  /** Every step of `a` has a rank in [lo, hi). */
  predicate Within(a: seq<Action>, lo: nat, hi: nat) {
    forall i :: 0 <= i < |a| ==> lo <= Rank(a[i].step) < hi
  }

  /** The steps of a run, in order. */
  function StepsOf(a: seq<Action>): (r: seq<Step>)
    ensures |r| == |a| && forall i :: 0 <= i < |a| ==> r[i] == a[i].step
  {
    seq(|a|, i requires 0 <= i < |a| => a[i].step)
  }

  /** Whether some interaction of `a` is the step `s`. */
  predicate Ran(a: seq<Action>, s: Step) {
    s in StepsOf(a)
  }

  lemma StepsOfAppend(p: seq<Action>, q: seq<Action>)
    ensures StepsOf(p + q) == StepsOf(p) + StepsOf(q)
  {
  }

  /** Two ordered runs whose ranks do not overlap make one ordered run. */
  lemma AscendingAppend(p: seq<Action>, q: seq<Action>, lo: nat, mid: nat, hi: nat)
    requires lo <= mid <= hi
    requires Ascending(p) && Within(p, lo, mid)
    requires Ascending(q) && Within(q, mid, hi)
    ensures Ascending(p + q) && Within(p + q, lo, hi)
  {
    forall i, j | 0 <= i < j < |p + q| ensures Rank((p + q)[i].step) < Rank((p + q)[j].step) {
      if j < |p| {
      } else if i < |p| {
        assert Rank((p + q)[i].step) < mid;
        assert (p + q)[j] == q[j - |p|];
      } else {
        assert (p + q)[i] == q[i - |p|] && (p + q)[j] == q[j - |p|];
      }
    }
    forall i | 0 <= i < |p + q| ensures lo <= Rank((p + q)[i].step) < hi {
      if i >= |p| {
        assert (p + q)[i] == q[i - |p|];
      }
    }
  }

  lemma DoOrdered(step: Step, arg: string, failing: set<Step>)
    ensures Ascending(Do(step, arg, failing).actions)
    ensures Within(Do(step, arg, failing).actions, Rank(step), Rank(step) + 1)
  {
  }

  lemma RetryOrdered(step: Step, retry: Step, failing: set<Step>)
    requires Rank(step) < Rank(retry)
    ensures Ascending(Retry(step, retry, failing).actions)
    ensures Within(Retry(step, retry, failing).actions, Rank(step), Rank(retry) + 1)
  {
  }

  /** A step whose rank lies outside the range of a run does not occur in it. */
  lemma NotRanOutside(a: seq<Action>, lo: nat, hi: nat, s: Step)
    requires Within(a, lo, hi) && !(lo <= Rank(s) < hi)
    ensures !Ran(a, s)
  {
    forall i | 0 <= i < |a| ensures StepsOf(a)[i] != s {
      assert Rank(a[i].step) != Rank(s);
    }
  }

  /** `Chain` keeps the order of ordered parts that come in rank order. */
  lemma ChainOrdered(p: Progress, q: Progress, lo: nat, mid: nat, hi: nat)
    requires lo <= mid <= hi
    requires Ascending(p.actions) && Within(p.actions, lo, mid)
    requires Ascending(q.actions) && Within(q.actions, mid, hi)
    ensures Ascending(Chain(p, q).actions) && Within(Chain(p, q).actions, lo, hi)
  {
    if p.stop.None? {
      AscendingAppend(p.actions, q.actions, lo, mid, hi);
    }
  }

  /** What `Chain` does: a stopped run is left as it is; otherwise the second
      part is appended and its stop becomes the stop of the whole. */
  lemma ChainFacts(p: Progress, q: Progress)
    ensures Chain(p, q).stop.None? <==> p.stop.None? && q.stop.None?
    ensures p.stop.Some? ==> Chain(p, q) == p
    ensures p.stop.None? ==> Chain(p, q).actions == p.actions + q.actions && Chain(p, q).stop == q.stop
    ensures StepsOf(Chain(p, q).actions) == if p.stop.Some? then StepsOf(p.actions) else StepsOf(p.actions) + StepsOf(q.actions)
  {
    StepsOfAppend(p.actions, q.actions);
  }

  /** A retried step: the retry runs exactly when the first attempt failed, and
      the unit of work stops only when both failed. */
  lemma RetryOnce(step: Step, retry: Step, failing: set<Step>)
    requires step != retry
    ensures Ran(Retry(step, retry, failing).actions, retry) <==> step in failing
    ensures Retry(step, retry, failing).stop.Some? <==> step in failing && retry in failing
    ensures |Retry(step, retry, failing).actions| <= 2
  {
    var p := Retry(step, retry, failing);
    if step in failing {
      assert StepsOf(p.actions)[1] == retry;
    }
  }

  /** Stages where a unit of work ends without an interaction failing. */
  predicate IsHaltStage(s: Step) {
    s == ReadRecord || s == ParseDueDate
  }

  /** Every interaction of `a` succeeded, or failed in a way that is tolerated. */
  predicate AllSucceeded(a: seq<Action>, failing: set<Step>, tolerated: set<Step>) {
    forall i :: 0 <= i < |a| ==> a[i].step !in failing || a[i].step in tolerated
  }

  /** A run ends at its first failure that is not tolerated: every interaction
      before the end succeeded (or was tolerated), and a run that stopped at an
      interaction stopped at the last one, which failed. */
  predicate StopsAtFirstFailure(p: Progress, failing: set<Step>, tolerated: set<Step>) {
    match p.stop
    case None => AllSucceeded(p.actions, failing, tolerated)
    case Some(st) =>
      if IsHaltStage(st) then AllSucceeded(p.actions, failing, tolerated)
      else
        |p.actions| > 0 && p.actions[|p.actions| - 1].step == st && st in failing &&
        AllSucceeded(p.actions[..|p.actions| - 1], failing, tolerated)
  }

  lemma DoStopsAtFirstFailure(step: Step, arg: string, failing: set<Step>, tolerated: set<Step>)
    requires !IsHaltStage(step)
    ensures StopsAtFirstFailure(Do(step, arg, failing), failing, tolerated)
  {
    assert Do(step, arg, failing).actions[..0] == [];
  }

  lemma RetryStopsAtFirstFailure(step: Step, retry: Step, failing: set<Step>, tolerated: set<Step>)
    requires step in tolerated && !IsHaltStage(retry)
    ensures StopsAtFirstFailure(Retry(step, retry, failing), failing, tolerated)
  {
    var p := Retry(step, retry, failing);
    if step in failing {
      assert p.actions[..|p.actions| - 1] == [Action(step, "")];
    }
  }

  /** Chaining two runs that each end at their first failure gives one that does too. */
  lemma ChainStopsAtFirstFailure(p: Progress, q: Progress, failing: set<Step>, tolerated: set<Step>)
    requires StopsAtFirstFailure(p, failing, tolerated) && StopsAtFirstFailure(q, failing, tolerated)
    ensures StopsAtFirstFailure(Chain(p, q), failing, tolerated)
  {
    if p.stop.None? {
      var a := p.actions + q.actions;
      assert forall i :: |p.actions| <= i < |a| ==> a[i] == q.actions[i - |p.actions|];
      if q.stop.Some? && !IsHaltStage(q.stop.value) {
        assert a[..|a| - 1] == p.actions + q.actions[..|q.actions| - 1];
      }
    }
  }

  /** The browser session: what has been done in it and how often the driver was quit. */
  class Session {
    var trace: seq<Action>
    var quits: nat

    constructor ()
      ensures trace == [] && quits == 0
    {
      trace := [];
      quits := 0;
    }

    /** Performs one interaction; its outcome is decided by `failing`. */
    method Perform(step: Step, arg: string, failing: set<Step>) returns (ok: bool)
      modifies this`trace
      ensures trace == old(trace) + [Action(step, arg)]
      ensures ok == (step !in failing)
    {
      trace := trace + [Action(step, arg)];
      ok := step !in failing;
    }

    /** `driver.quit()` */
    method Quit()
      modifies this`quits
      ensures quits == old(quits) + 1
    {
      quits := quits + 1;
    }
  }
}
