/** The step limit is a budget of the project: the step count is stored with the state and nothing resets it. */
module LifecycleBudget {
  import opened Backlog
  import opened TaskSplitting
  import opened Lifecycle
  import opened LifecycleRuns

  function Completions(steps: seq<Step>): nat {
    if steps == [] then 0 else (if steps[0].Complete? then 1 else 0) + Completions(steps[1..])
  }

  lemma StepCounts(s: State, step: Step, lim: Limits)
    requires Next(s, step, lim).Some?
    ensures Next(s, step, lim).value.stepCount == s.stepCount + (if step.Complete? then 1 else 0)
    ensures step.Resume? || step.Replay? || s.stepCount < lim.maxStepsPerRun
  {
    hide Clean, SplitTasks, AddToFeature, IsExecutable, Without;
  }

  /**
   * Each completion spends one step for good, so a project whose count is `n` can see at most `maxStepsPerRun - n`
   * further completions, over however many runs.
   */
  lemma {:induction false} CompletionsAreBudgeted(s: State, steps: seq<Step>, lim: Limits)
    requires Exec(s, steps, lim).Some?
    ensures Exec(s, steps, lim).value.stepCount == s.stepCount + Completions(steps)
    ensures Completions(steps) == 0 || s.stepCount + Completions(steps) <= lim.maxStepsPerRun
    decreases |steps|
  {
    hide Next;
    if steps != [] {
      StepCounts(s, steps[0], lim);
      CompletionsAreBudgeted(Next(s, steps[0], lim).value, steps[1..], lim);
    }
  }

  /** Once the budget is spent no task is ever run again. */
  lemma {:induction false} SpentForGood(s: State, steps: seq<Step>, lim: Limits)
    requires Exec(s, steps, lim).Some? && s.stepCount >= lim.maxStepsPerRun
    ensures forall step | step in steps :: step.Resume? || step.Replay?
    decreases |steps|
  {
    hide Next;
    if steps != [] {
      StepCounts(s, steps[0], lim);
      SpentForGood(Next(s, steps[0], lim).value, steps[1..], lim);
    }
  }
}
