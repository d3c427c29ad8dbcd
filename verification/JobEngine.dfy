/**
 The step runner (source/jobs/JobEngine.cpp).  What a step would do if it ran belongs to the environment: whether its
 handler can be used, how many lines it writes to standard error, and its exit code.
 */
module JobEngine {
  import opened Options

  datatype Kind = RunHandler | RunCommand | Unknown

  datatype Action = Action(name: string, kind: Kind, ignoreStepFailure: bool, allowStdErr: Option<int>)

  datatype Outcome = Outcome(usable: bool, errorLines: nat, exit: int)

  /** The out-parameter of the step, the count of error lines since the engine was made, and the steps started. */
  datatype Progress = Progress(status: int, errors: nat, launched: seq<Action>)

  function ActionSection(p: Progress, action: Action, outcome: Outcome): Progress {
    if action.kind == RunHandler && !outcome.usable then
      if action.ignoreStepFailure then p else p.(status := 1)
    else if action.kind == Unknown then p.(status := 1)
    else
      var q := p.(errors := p.errors + outcome.errorLines, launched := p.launched + [action]);
      if action.ignoreStepFailure then q
      else if action.allowStdErr.Some? then
        if outcome.exit == 0 && q.errors >= action.allowStdErr.value then q.(status := outcome.exit) else q
      else q.(status := outcome.exit)
  }

  /** The steps from `i` on: stop at the first non-zero status, run the final step after the last one. */
  function Execute(p: Progress, steps: seq<Action>, finalStep: Option<Action>, outcomes: seq<Outcome>, i: nat): Progress
    requires i <= |steps| && |outcomes| == |steps| + 1
    decreases |steps| - i
  {
    if i == |steps| then
      if finalStep.Some? then ActionSection(p, finalStep.value, outcomes[i]) else p
    else
      var q := ActionSection(p, steps[i], outcomes[i]);
      if q.status != 0 then q else Execute(q, steps, finalStep, outcomes, i + 1)
  }

  class JobEngine {
    var errors: nat
    var launched: seq<Action>

    ghost function At(status: int): Progress
      reads this
    {
      Progress(status, errors, launched)
    }

    constructor ()
      ensures errors == 0 && launched == []
    {
      errors, launched := 0, [];
    }

    method ExecAction(action: Action, outcome: Outcome, status: int) returns (executionStatus: int)
      modifies this
      ensures At(executionStatus) == ActionSection(old(At(status)), action, outcome)
    {
      executionStatus := status;
      if action.kind == RunHandler {
        if !outcome.usable {
          if !action.ignoreStepFailure {
            executionStatus := 1;
          }
          return;
        }
      } else if action.kind != RunCommand {
        executionStatus := 1;
        return;
      }
      launched := launched + [action];
      errors := errors + outcome.errorLines;
      if !action.ignoreStepFailure {
        if action.allowStdErr.Some? {
          if outcome.exit == 0 && errors >= action.allowStdErr.value {
            executionStatus := outcome.exit;
          }
        } else {
          executionStatus := outcome.exit;
        }
      }
    }

    method ExecSteps(steps: seq<Action>, finalStep: Option<Action>, outcomes: seq<Outcome>)
      returns (executionStatus: int)
      requires |outcomes| == |steps| + 1
      modifies this
      ensures At(executionStatus) == Execute(old(At(0)), steps, finalStep, outcomes, 0)
    {
      executionStatus := 0;
      for i := 0 to |steps|
        invariant Execute(At(executionStatus), steps, finalStep, outcomes, i)
                  == Execute(old(At(0)), steps, finalStep, outcomes, 0)
      {
        executionStatus := ExecAction(steps[i], outcomes[i], executionStatus);
        if executionStatus != 0 {
          return;
        }
      }
      if finalStep.Some? {
        executionStatus := ExecAction(finalStep.value, outcomes[|steps|], executionStatus);
      }
    }
  }

  // ---------------------------------------------------------------- what a run amounts to

  /** The status a step reports on its own: a failure counts or it does not. */
  function Failure(action: Action, outcome: Outcome): int {
    match action.kind
    case Unknown => 1
    case RunHandler =>
      if action.ignoreStepFailure then 0
      else if !outcome.usable then 1
      else if action.allowStdErr.Some? then 0 else outcome.exit
    case RunCommand =>
      if action.ignoreStepFailure || action.allowStdErr.Some? then 0 else outcome.exit
  }

  predicate Launches(action: Action, outcome: Outcome) {
    action.kind == RunCommand || (action.kind == RunHandler && outcome.usable)
  }

  /** The steps among the first `n` that are started. */
  function LaunchedOf(steps: seq<Action>, outcomes: seq<Outcome>, n: nat): seq<Action>
    requires n <= |steps| && n <= |outcomes|
  {
    if n == 0 then []
    else LaunchedOf(steps, outcomes, n - 1) + if Launches(steps[n - 1], outcomes[n - 1]) then [steps[n - 1]] else []
  }

  /** The error lines of those. */
  function ErrorsOf(steps: seq<Action>, outcomes: seq<Outcome>, n: nat): nat
    requires n <= |steps| && n <= |outcomes|
  {
    if n == 0 then 0
    else ErrorsOf(steps, outcomes, n - 1) +
         if Launches(steps[n - 1], outcomes[n - 1]) then outcomes[n - 1].errorLines else 0
  }

  /** `n` is the first step whose failure counts, or the number of steps. */
  predicate FirstFailure(steps: seq<Action>, outcomes: seq<Outcome>, n: nat) {
    n <= |steps| < |outcomes| &&
    (forall i :: 0 <= i < n ==> Failure(steps[i], outcomes[i]) == 0) &&
    (n < |steps| ==> Failure(steps[n], outcomes[n]) != 0)
  }

  /** A status of 0 is overwritten with the step's own; any other one may stay. */
  lemma ActionReportsFailure(p: Progress, action: Action, outcome: Outcome)
    ensures var q := ActionSection(p, action, outcome);
            q.launched == p.launched + (if Launches(action, outcome) then [action] else []) &&
            q.errors == p.errors + (if Launches(action, outcome) then outcome.errorLines else 0) &&
            (p.status == 0 ==> q.status == Failure(action, outcome))
  {
  }

  /** Up to the first counting failure every step is entered with status 0. */
  lemma {:induction false} ExecuteReaches(
    p: Progress, steps: seq<Action>, finalStep: Option<Action>, outcomes: seq<Outcome>, i: nat) returns (q: Progress)
    requires |outcomes| == |steps| + 1 && i <= |steps| && p.status == 0
    requires forall j :: 0 <= j < i ==> Failure(steps[j], outcomes[j]) == 0
    ensures q.status == 0 && q.launched == p.launched + LaunchedOf(steps, outcomes, i)
    ensures q.errors == p.errors + ErrorsOf(steps, outcomes, i)
    ensures Execute(p, steps, finalStep, outcomes, 0) == Execute(q, steps, finalStep, outcomes, i)
  {
    if i == 0 {
      q := p;
    } else {
      var before := ExecuteReaches(p, steps, finalStep, outcomes, i - 1);
      ActionReportsFailure(before, steps[i - 1], outcomes[i - 1]);
      q := ActionSection(before, steps[i - 1], outcomes[i - 1]);
    }
  }

  /**
   Exactly the steps up to the first counting failure are run and its status is the result; the final step is run, and
   decides the result, exactly if there is no such failure.
   */
  lemma ExecuteRunsPrefix(steps: seq<Action>, finalStep: Option<Action>, outcomes: seq<Outcome>, n: nat, p: Progress)
    requires |outcomes| == |steps| + 1 && FirstFailure(steps, outcomes, n) && p.status == 0
    ensures var q := Execute(p, steps, finalStep, outcomes, 0);
            if n < |steps| then
              q.status == Failure(steps[n], outcomes[n]) &&
              q.launched == p.launched + LaunchedOf(steps, outcomes, n + 1) &&
              q.errors == p.errors + ErrorsOf(steps, outcomes, n + 1)
            else if finalStep.Some? then
              q.status == Failure(finalStep.value, outcomes[n]) &&
              q.launched == p.launched + LaunchedOf(steps + [finalStep.value], outcomes, n + 1) &&
              q.errors == p.errors + ErrorsOf(steps + [finalStep.value], outcomes, n + 1)
            else
              q.status == 0 && q.launched == p.launched + LaunchedOf(steps, outcomes, n) &&
              q.errors == p.errors + ErrorsOf(steps, outcomes, n)
  {
    var q := ExecuteReaches(p, steps, finalStep, outcomes, n);
    if n < |steps| {
      ActionReportsFailure(q, steps[n], outcomes[n]);
    } else if finalStep.Some? {
      ActionReportsFailure(q, finalStep.value, outcomes[n]);
      LaunchedOfMore(steps, [finalStep.value], outcomes, n);
    }
  }

  lemma {:induction false} LaunchedOfMore(steps: seq<Action>, more: seq<Action>, outcomes: seq<Outcome>, n: nat)
    requires n <= |steps| && n <= |outcomes|
    ensures LaunchedOf(steps + more, outcomes, n) == LaunchedOf(steps, outcomes, n)
    ensures ErrorsOf(steps + more, outcomes, n) == ErrorsOf(steps, outcomes, n)
  {
    if n > 0 {
      LaunchedOfMore(steps, more, outcomes, n - 1);
    }
  }

  lemma {:induction false} FirstFailureExists(steps: seq<Action>, outcomes: seq<Outcome>, i: nat) returns (n: nat)
    requires i <= |steps| < |outcomes| && forall j :: 0 <= j < i ==> Failure(steps[j], outcomes[j]) == 0
    ensures FirstFailure(steps, outcomes, n)
    decreases |steps| - i
  {
    if i < |steps| && Failure(steps[i], outcomes[i]) == 0 {
      n := FirstFailureExists(steps, outcomes, i + 1);
    } else {
      n := i;
    }
  }

  /** A job succeeds exactly if no failure of a step, nor of the final step, counts. */
  lemma SucceedsIff(steps: seq<Action>, finalStep: Option<Action>, outcomes: seq<Outcome>, p: Progress)
    requires |outcomes| == |steps| + 1 && p.status == 0
    ensures Execute(p, steps, finalStep, outcomes, 0).status == 0 <==>
            (forall i :: 0 <= i < |steps| ==> Failure(steps[i], outcomes[i]) == 0) &&
            (finalStep.Some? ==> Failure(finalStep.value, outcomes[|steps|]) == 0)
  {
    var n := FirstFailureExists(steps, outcomes, 0);
    ExecuteRunsPrefix(steps, finalStep, outcomes, n, p);
  }

  // ---------------------------------------------------------------- the allowance for error lines

  /** The two steps differ at most in their names and in the number of error lines they allow. */
  predicate SameButAllowance(a: Action, b: Action) {
    a.kind == b.kind && a.ignoreStepFailure == b.ignoreStepFailure && (a.allowStdErr.Some? <==> b.allowStdErr.Some?)
  }

  /** How many error lines a step allows, and how many it writes, never decides how a job ends. */
  lemma AllowanceIsIgnored(
    steps: seq<Action>, others: seq<Action>, finalStep: Option<Action>,
    outcomes: seq<Outcome>, differently: seq<Outcome>, p: Progress)
    requires |others| == |steps| && |outcomes| == |differently| == |steps| + 1 && p.status == 0
    requires forall i :: 0 <= i < |steps| ==> SameButAllowance(steps[i], others[i])
    requires forall i :: 0 <= i <= |steps| ==>
               outcomes[i].usable == differently[i].usable && outcomes[i].exit == differently[i].exit
    ensures Execute(p, steps, finalStep, outcomes, 0).status == Execute(p, others, finalStep, differently, 0).status
  {
    var n := FirstFailureExists(steps, outcomes, 0);
    assert forall i :: 0 <= i < |steps| ==> Failure(steps[i], outcomes[i]) == Failure(others[i], differently[i]);
    ExecuteRunsPrefix(steps, finalStep, outcomes, n, p);
    ExecuteRunsPrefix(others, finalStep, differently, n, p);
  }

  /**
   The documented verdict on one step: a failure may be ignored; otherwise the step must be one that can be started,
   end with exit code 0, and write no more error lines than it allows, by default none.
   */
  predicate DocumentedSuccess(action: Action, outcome: Outcome) {
    action.kind != Unknown &&
    (action.ignoreStepFailure ||
     (Launches(action, outcome) && outcome.exit == 0 && outcome.errorLines <= AllowedLines(action)))
  }

  function AllowedLines(action: Action): int {
    if action.allowStdErr.Some? then action.allowStdErr.value else 0
  }

  /** The documented verdict on a job: every step and the final step succeed. */
  predicate DocumentedJobSuccess(steps: seq<Action>, finalStep: Option<Action>, outcomes: seq<Outcome>)
    requires |outcomes| == |steps| + 1
  {
    (forall i :: 0 <= i < |steps| ==> DocumentedSuccess(steps[i], outcomes[i])) &&
    (finalStep.Some? ==> DocumentedSuccess(finalStep.value, outcomes[|steps|]))
  }

  /** A non-zero exit behind an allowance, or too many error lines behind exit code 0. */
  predicate LetPass(action: Action, outcome: Outcome) {
    Launches(action, outcome) && !action.ignoreStepFailure &&
    if outcome.exit != 0 then action.allowStdErr.Some? else outcome.errorLines > AllowedLines(action)
  }

  /** A step that cannot be started, or ends with a non-zero exit and no allowance. */
  predicate Caught(action: Action, outcome: Outcome) {
    action.kind == Unknown ||
    (!action.ignoreStepFailure &&
     (!Launches(action, outcome) || (outcome.exit != 0 && action.allowStdErr.None?)))
  }

  predicate AnyStep(steps: seq<Action>, finalStep: Option<Action>, outcomes: seq<Outcome>,
                    P: (Action, Outcome) -> bool)
    requires |outcomes| == |steps| + 1
  {
    (exists i :: 0 <= i < |steps| && P(steps[i], outcomes[i])) ||
    (finalStep.Some? && P(finalStep.value, outcomes[|steps|]))
  }

  lemma StepVerdicts(action: Action, outcome: Outcome)
    ensures Failure(action, outcome) != 0 <==> Caught(action, outcome)
    ensures Caught(action, outcome) ==>
              Failure(action, outcome) == if Launches(action, outcome) then outcome.exit else 1
    ensures DocumentedSuccess(action, outcome) <==> !Caught(action, outcome) && !LetPass(action, outcome)
  {
  }

  /**
   The code passes every job that the documentation passes; the two agree on a job if and only if it holds no step
   that is let pass, or some other step fails it all the same.
   */
  lemma DocumentedVerdictIff(steps: seq<Action>, finalStep: Option<Action>, outcomes: seq<Outcome>, p: Progress)
    requires |outcomes| == |steps| + 1 && p.status == 0
    ensures var succeeds := Execute(p, steps, finalStep, outcomes, 0).status == 0;
            && (DocumentedJobSuccess(steps, finalStep, outcomes) ==> succeeds)
            && ((succeeds <==> DocumentedJobSuccess(steps, finalStep, outcomes)) <==>
                !AnyStep(steps, finalStep, outcomes, LetPass) || AnyStep(steps, finalStep, outcomes, Caught))
  {
    SucceedsIff(steps, finalStep, outcomes, p);
    forall i | 0 <= i < |steps|
      ensures Failure(steps[i], outcomes[i]) != 0 <==> Caught(steps[i], outcomes[i])
      ensures DocumentedSuccess(steps[i], outcomes[i]) <==>
              !Caught(steps[i], outcomes[i]) && !LetPass(steps[i], outcomes[i])
    {
      StepVerdicts(steps[i], outcomes[i]);
    }
    if finalStep.Some? {
      StepVerdicts(finalStep.value, outcomes[|steps|]);
    }
  }

  /** No job of one step whose failures count is judged as documented for every outcome. */
  lemma NoStepAsDocumented(action: Action) returns (outcome: Outcome)
    requires action.kind != Unknown && !action.ignoreStepFailure
    ensures Execute(Progress(0, 0, []), [action], None, [outcome, outcome], 0).status == 0
    ensures !DocumentedJobSuccess([action], None, [outcome, outcome])
  {
    outcome := Outcome(true, if AllowedLines(action) < 0 then 0 else AllowedLines(action) + 1, 0);
    var steps, outcomes := [action], [outcome, outcome];
    DocumentedVerdictIff(steps, None, outcomes, Progress(0, 0, []));
    assert LetPass(steps[0], outcomes[0]) && !Caught(steps[0], outcomes[0]);
    assert !DocumentedSuccess(steps[0], outcomes[0]);
    SucceedsIff(steps, None, outcomes, Progress(0, 0, []));
    StepVerdicts(action, outcome);
  }

  /** A step that fails with too many error lines, and that the code lets pass. */
  lemma TooManyErrorLines()
    ensures var action := Action("install", RunCommand, false, Some(2));
            Failure(action, Outcome(true, 3, 1)) == 0 && !DocumentedSuccess(action, Outcome(true, 3, 1))
  {
  }
}
