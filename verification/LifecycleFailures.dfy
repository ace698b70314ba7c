/** What a failure does to a task, over one step and over whole runs. */
module LifecycleFailures {
  import opened Graph
  import opened Options
  import opened Backlog
  import opened TaskSplitting
  import opened Lifecycle
  import opened LifecycleRuns

  // ----- One failure -----

  /** The parts of `id` are stored to do, it is superseded, and no other task changes its status. */
  predicate SplitInto(before: Tasks, after: Tasks, id: Id) {
    && id in before && after.Keys == before.Keys + {FirstPart(id), SecondPart(id)}
    && after[id] == before[id].(status := Superseded)
    && IsPart(after, FirstPart(id), id) && IsPart(after, SecondPart(id), id)
    && forall k | k in before && k != id :: after[k].status == before[k].status
  }

  predicate IsPart(tasks: Tasks, part: Id, id: Id) {
    part in tasks && tasks[part].status == Todo && tasks[part].splitFrom == Some(id)
  }

  predicate IsBlocked(before: Tasks, after: Tasks, id: Id, blocked: seq<Id>) {
    id in before && after == before[id := before[id].(status := Status.Blocked)] && id in blocked
  }

  lemma FailCounts(s: State, t: Task, f: string, limit: nat)
    ensures var s' := FailTask(s, t, f, limit);
            && RetryCount(s', t.id) == RetryCount(s, t.id) + 1
            && forall k | k != t.id :: RetryCount(s', k) == RetryCount(s, k)
  {
    hide SplitTasks, AddToFeature, Without, AppendNew;
  }

  lemma FailBelowLimit(s: State, t: Task, f: string, limit: nat)
    requires RetryCount(s, t.id) + 1 < limit
    ensures var s' := FailTask(s, t, f, limit);
            && s'.tasks == s.tasks && s'.blocked == s.blocked && s'.features == s.features
            && s'.failures == s.failures + [Failure(f, t.id, Retryable)]
            && s'.activeTaskId == None && s'.completed == s.completed && s'.stepCount == s.stepCount
  {
    hide SplitTask, BlockTask;
  }

  lemma FailSplits(s: State, id: Id, f: string, limit: nat)
    requires Keyed(s.tasks) && id in s.tasks && FreshParts(s.tasks, id)
    requires RetryCount(s, id) + 1 >= limit && s.tasks[id].splitFrom.None?
    ensures var s' := FailTask(s, s.tasks[id], f, limit);
            && SplitInto(s.tasks, s'.tasks, id) && s'.tasks == SplitTasks(s.tasks, s.tasks[id])
            && s'.activeTaskId == None && s'.completed == s.completed && s'.stepCount == s.stepCount
            && (forall k :: k in s'.blocked <==> k in s.blocked && k != id)
            && s'.failures == s.failures + [Failure(f, id, Retryable)]
  {
    hide SplitInto, FreshParts, SplitTasks, AddToFeature, BlockTask;
    SplitTasksSplits(s.tasks, id);
  }

  lemma SplitTasksSplits(tasks: Tasks, id: Id)
    requires Keyed(tasks) && id in tasks && FreshParts(tasks, id)
    ensures SplitInto(tasks, SplitTasks(tasks, tasks[id]), id)
  {
    hide SplitTasks, FirstPart, SecondPart, SplitTaskForRetry, RewriteTask, FreshParts;
    SplitKeepsOthers(tasks, id);
    SplitStores(tasks, id);
  }

  /** The parts are listed in the parent's feature, once, after the tasks listed there; other features stay. */
  lemma PartsAreListed(s: State, t: Task, f: string, limit: nat)
    requires RetryCount(s, t.id) + 1 >= limit && t.splitFrom.None?
    ensures var s' := FailTask(s, t, f, limit);
            && s'.features.Keys == s.features.Keys && s'.epics == s.epics && s'.artifacts == s.artifacts + [t.id]
            && (forall k | k in s.features && k in s'.features && k != t.featureId :: s'.features[k] == s.features[k])
            && (t.featureId in s.features && t.featureId in s'.features ==>
                  var before, after := s.features[t.featureId], s'.features[t.featureId];
                  && after.epicId == before.epicId && before.taskIds <= after.taskIds
                  && (FirstPart(t.id) !in before.taskIds && SecondPart(t.id) !in before.taskIds ==>
                        after.taskIds == before.taskIds + [FirstPart(t.id), SecondPart(t.id)])
                  && forall x :: x in after.taskIds <==>
                       x in before.taskIds || x == FirstPart(t.id) || x == SecondPart(t.id))
  {
    hide SplitTasks, FirstPart, SecondPart, BlockTask, Without;
    PartIdsDistinct(t.id, t.id);
  }

  lemma FailBlocks(s: State, id: Id, f: string, limit: nat)
    requires Keyed(s.tasks) && id in s.tasks && RetryCount(s, id) + 1 >= limit && s.tasks[id].splitFrom.Some?
    ensures var s' := FailTask(s, s.tasks[id], f, limit);
            && IsBlocked(s.tasks, s'.tasks, id, s'.blocked)
            && s'.failures == s.failures + [Failure(f, id, DeadLettered)]
  {
    hide SplitTask;
  }

  /**
   * A failure counts as one retry. While the count stays below the limit the tasks are left alone; at the limit a
   * task that was never split is superseded by its two parts, and a part is blocked. Only then is it a dead letter.
   */
  lemma FailureEffect(s: State, id: Id, f: string, lim: Limits)
    requires Inv(s, lim) && Next(s, Fail(id, f), lim).Some?
    ensures id in s.tasks && s.tasks[id].status == Todo
    ensures var s' := Next(s, Fail(id, f), lim).value;
            && RetryCount(s', id) == RetryCount(s, id) + 1
            && (forall k | k != id :: RetryCount(s', k) == RetryCount(s, k))
            && (s'.tasks == s.tasks <==> RetryCount(s', id) < lim.maxRetriesPerTask)
            && (RetryCount(s', id) >= lim.maxRetriesPerTask ==>
                  if s.tasks[id].splitFrom.None? then SplitInto(s.tasks, s'.tasks, id)
                  else IsBlocked(s.tasks, s'.tasks, id, s'.blocked))
            && s'.failures == s.failures + [Failure(f, id,
                 if RetryCount(s', id) >= lim.maxRetriesPerTask && s.tasks[id].splitFrom.Some? then DeadLettered
                 else Retryable)]
  {
    hide Inv, FailTask, Clean, RetryCount, FreshParts, SplitInto, IsBlocked;
    IdIsKey(s, id, lim);
    IsKeyed(s, lim);
    RunnableTask(s, id, lim);
    FailCounts(s, s.tasks[id], f, lim.maxRetriesPerTask);
    if RetryCount(s, id) + 1 < lim.maxRetriesPerTask {
      FailBelowLimit(s, s.tasks[id], f, lim.maxRetriesPerTask);
    } else {
      var s' := Next(s, Fail(id, f), lim).value;
      if s.tasks[id].splitFrom.None? {
        PartsAreFree(s, id, lim);
        FailSplits(s, id, f, lim.maxRetriesPerTask);
      } else {
        FailBlocks(s, id, f, lim.maxRetriesPerTask);
      }
      GivenUpDiffers(s.tasks, s'.tasks, id, s'.blocked);
    }
  }

  lemma GivenUpDiffers(before: Tasks, after: Tasks, id: Id, blocked: seq<Id>)
    requires id in before && before[id].status == Todo
    requires SplitInto(before, after, id) || IsBlocked(before, after, id, blocked)
    ensures before != after
  {
  }

  lemma IsKeyed(s: State, lim: Limits)
    requires Inv(s, lim)
    ensures Keyed(s.tasks)
  {
    hide Clean, Agreed, DeadLettersSpent, Acyclic, NoSupersededDependency, PartsFree;
  }

  lemma RunnableTask(s: State, id: Id, lim: Limits)
    requires Runnable(s, id, lim)
    ensures id in s.tasks && s.tasks[id].status == Todo
  {
  }

  /** A run that dies after recording a failure has counted it, and has left its task as it was. */
  lemma InterruptionEffect(s: State, id: Id, f: string, lim: Limits)
    requires Inv(s, lim) && Next(s, Interrupted(id, f), lim).Some?
    ensures var s' := Next(s, Interrupted(id, f), lim).value;
            && s'.tasks == s.tasks && RetryCount(s', id) == RetryCount(s, id) + 1
            && (forall k | k != id :: RetryCount(s', k) == RetryCount(s, k))
            && |s'.failures| == |s.failures| + 1 && s'.failures[..|s.failures|] == s.failures
            && s'.failures[|s.failures|].taskId == id
  {
    hide Inv, Clean, IsExecutable, ShouldStop, NextFailureAction;
    IdIsKey(s, id, lim);
    assert Next(s, Interrupted(id, f), lim).value == RecordFailure(s, s.tasks[id], f, lim.maxRetriesPerTask);
    hide Next;
  }

  // ----- Operators -----

  /** Resuming a dead letter puts its blocked task back to do, and only that; the failure is marked and stays listed. */
  lemma ResumeReopens(s: State, f: string, lim: Limits)
    requires Inv(s, lim) && ResumeFailure(s, f).Some?
    ensures var i := FindFailure(s.failures, f);
            var s' := ResumeFailure(s, f).value;
            && i < |s.failures| && s.failures[i].id == f && s.failures[i].status == DeadLettered
            && s'.failures == s.failures[i := s.failures[i].(status := Resumed)]
            && var id := s.failures[i].taskId;
            && (forall k | k in s.tasks && k != id :: k in s'.tasks && s'.tasks[k] == s.tasks[k])
            && (forall k :: k in s'.blocked <==>
                  k in s.blocked && !(k == id && id in s.tasks && s.tasks[id].status == Status.Blocked))
            && (id in s.tasks ==>
                  id in s'.tasks && s'.tasks[id] ==
                    if s.tasks[id].status == Status.Blocked then s.tasks[id].(status := Todo) else s.tasks[id])
            && s'.retries == s.retries && s'.completed == s.completed && s'.activeTaskId == s.activeTaskId
  {
    hide Clean, Agreed, DeadLettersSpent, Acyclic, NoSupersededDependency, PartsFree;
  }

  /** Replaying a dead letter marks it and makes its task the active one, and changes nothing else. */
  lemma ReplayEffect(s: State, f: string)
    requires ReplayFailure(s, f).Some?
    ensures var i := FindFailure(s.failures, f);
            && i < |s.failures| && s.failures[i].id == f && s.failures[i].status == DeadLettered
            && ReplayFailure(s, f).value == s.(failures := s.failures[..i] +
                 [Failure(f, s.failures[i].taskId, Replayed)] + s.failures[i + 1..],
                 activeTaskId := Some(s.failures[i].taskId))
  {
  }

  /** Neither command finds a failure that is not a dead letter: the first one of that id decides. */
  lemma {:induction false} FirstOfIdDecides(failures: seq<Failure>, f: string)
    ensures var i := FindFailure(failures, f);
            && (i == |failures| <==> forall x | x in failures :: x.id != f)
            && forall j | 0 <= j < i :: failures[j].id != f
  {
    if failures != [] && failures[0].id != f {
      FirstOfIdDecides(failures[1..], f);
      var i := FindFailure(failures, f);
      forall j | 0 <= j < i ensures failures[j].id != f {
        assert j > 0 ==> failures[1..][j - 1].id != f;
      }
    }
  }

  predicate IsFirstDeadLetter(failures: seq<Failure>, f: string, i: nat) {
    && i < |failures| && failures[i].id == f && failures[i].status == DeadLettered
    && forall j | 0 <= j < i :: failures[j].id != f
  }

  /** Both commands apply exactly when the first failure of that id is a dead letter. */
  lemma CommandsNeedDeadLetter(s: State, f: string)
    ensures ResumeFailure(s, f).Some? <==> ReplayFailure(s, f).Some?
    ensures ResumeFailure(s, f).Some? <==> exists i: nat :: IsFirstDeadLetter(s.failures, f, i)
  {
    FirstOfIdDecides(s.failures, f);
    assert ResumeFailure(s, f).Some? ==> IsFirstDeadLetter(s.failures, f, FindFailure(s.failures, f));
    forall j: nat | IsFirstDeadLetter(s.failures, f, j) ensures ResumeFailure(s, f).Some? {
      assert s.failures[j] in s.failures && FindFailure(s.failures, f) == j;
    }
  }

  // ----- Whole runs -----

  predicate FailureOf(step: Step, id: Id) {
    (step.Fail? || step.Interrupted?) && step.id == id
  }

  function CountFailures(steps: seq<Step>, id: Id): nat {
    if steps == [] then 0 else (if FailureOf(steps[0], id) then 1 else 0) + CountFailures(steps[1..], id)
  }

  lemma StepCountsFailure(s: State, step: Step, lim: Limits, id: Id)
    requires Inv(s, lim) && Next(s, step, lim).Some?
    ensures RetryCount(Next(s, step, lim).value, id) == RetryCount(s, id) + if FailureOf(step, id) then 1 else 0
  {
    hide Inv, FailTask, RecordFailure, RetryCount;
    match step {
      case Fail(x, f) => FailureEffect(s, x, f, lim);
      case Interrupted(x, f) => InterruptionEffect(s, x, f, lim);
      case _ => SameRetries(s, step, lim);
    }
  }

  lemma SameRetries(s: State, step: Step, lim: Limits)
    requires Next(s, step, lim).Some? && !step.Fail? && !step.Interrupted?
    ensures forall k :: RetryCount(Next(s, step, lim).value, k) == RetryCount(s, k)
  {
    hide Clean, IsExecutable, ShouldStop, Without, AppendNew, FindFailure, FailTask, RecordFailure;
    assert Next(s, step, lim).value == Outcome(s, step, lim).value;
    hide Next;
    assert Outcome(s, step, lim).value.retries == s.retries;
  }

  /** The retry count of a task is the number of its failures, whatever else happens. */
  lemma {:induction false} RetriesCountFailures(s: State, steps: seq<Step>, lim: Limits, id: Id)
    requires Inv(s, lim) && Exec(s, steps, lim).Some?
    ensures RetryCount(Exec(s, steps, lim).value, id) == RetryCount(s, id) + CountFailures(steps, id)
    decreases |steps|
  {
    hide Inv, Next, RetryCount;
    if steps != [] {
      StepCountsFailure(s, steps[0], lim, id);
      NextKeepsInv(s, steps[0], lim);
      RetriesCountFailures(Next(s, steps[0], lim).value, steps[1..], lim, id);
    }
  }

  predicate GivenUp(t: Task) {
    t.status == Superseded || t.status == Status.Blocked
  }

  /** If the task was given up, it has spent its retries. */
  predicate SpentIfGivenUp(tasks: Tasks, retries: nat, id: Id, lim: Limits) {
    id in tasks && GivenUp(tasks[id]) ==> retries >= Patience(lim)
  }

  lemma SplitGivesUp(before: Tasks, after: Tasks, id: Id, blocked: seq<Id>, k: Id)
    requires SplitInto(before, after, id) || IsBlocked(before, after, id, blocked)
    ensures k != id && k in after && GivenUp(after[k]) ==> k in before && GivenUp(before[k])
  {
    hide FirstPart, SecondPart;
  }

  lemma StepSpends(s: State, step: Step, lim: Limits, id: Id)
    requires Inv(s, lim) && Next(s, step, lim).Some? && SpentIfGivenUp(s.tasks, RetryCount(s, id), id, lim)
    ensures var s' := Next(s, step, lim).value; SpentIfGivenUp(s'.tasks, RetryCount(s', id), id, lim)
  {
    hide Inv, Next, RetryCount, SplitInto, IsBlocked;
    StepCountsFailure(s, step, lim, id);
    match step {
      case Fail(x, f) => FailureSpends(s, x, f, lim, id);
      case Interrupted(x, f) => InterruptionEffect(s, x, f, lim);
      case _ => OtherStepsGiveNothingUp(s, step, lim, id);
    }
  }

  lemma FailureSpends(s: State, x: Id, f: string, lim: Limits, id: Id)
    requires Inv(s, lim) && Next(s, Fail(x, f), lim).Some? && SpentIfGivenUp(s.tasks, RetryCount(s, id), id, lim)
    ensures var s' := Next(s, Fail(x, f), lim).value; SpentIfGivenUp(s'.tasks, RetryCount(s', id), id, lim)
  {
    hide Inv, Next, RetryCount, SplitInto, IsBlocked;
    FailureEffect(s, x, f, lim);
    var s' := Next(s, Fail(x, f), lim).value;
    if RetryCount(s', x) >= lim.maxRetriesPerTask {
      SplitGivesUp(s.tasks, s'.tasks, x, s'.blocked, id);
    }
  }

  lemma OtherStepsGiveNothingUp(s: State, step: Step, lim: Limits, id: Id)
    requires Inv(s, lim) && Next(s, step, lim).Some? && !step.Fail? && !step.Interrupted?
    ensures var s' := Next(s, step, lim).value;
            id in s'.tasks && GivenUp(s'.tasks[id]) ==> id in s.tasks && GivenUp(s.tasks[id])
  {
    hide Inv, Clean, IsExecutable, ShouldStop, Without, AppendNew, FindFailure, FailTask, RecordFailure;
    assert Next(s, step, lim).value == Outcome(s, step, lim).value;
    hide Next;
    if step.Complete? { IdIsKey(s, step.id, lim); }
  }

  lemma {:induction false} RunSpends(s: State, steps: seq<Step>, lim: Limits, id: Id)
    requires Inv(s, lim) && Exec(s, steps, lim).Some? && SpentIfGivenUp(s.tasks, RetryCount(s, id), id, lim)
    ensures var s' := Exec(s, steps, lim).value; SpentIfGivenUp(s'.tasks, RetryCount(s', id), id, lim)
    decreases |steps|
  {
    hide Inv, Next, RetryCount, SpentIfGivenUp;
    if steps != [] {
      StepSpends(s, steps[0], lim, id);
      NextKeepsInv(s, steps[0], lim);
      RunSpends(Next(s, steps[0], lim).value, steps[1..], lim, id);
    }
  }

  /**
   * No task is superseded or blocked before it has failed `max(1, limit)` times, over however many runs and whatever
   * operators do in between.
   */
  lemma GivenUpOnlyAfterFailures(s: State, steps: seq<Step>, lim: Limits, id: Id)
    requires Inv(s, lim) && Exec(s, steps, lim).Some?
    requires RetryCount(s, id) == 0 && !(id in s.tasks && GivenUp(s.tasks[id]))
    ensures var s' := Exec(s, steps, lim).value;
            id in s'.tasks && GivenUp(s'.tasks[id]) ==> CountFailures(steps, id) >= Max(1, lim.maxRetriesPerTask)
  {
    hide Inv, Exec, RetryCount;
    RunSpends(s, steps, lim, id);
    RetriesCountFailures(s, steps, lim, id);
  }

  // ----- The bound on the handled outcomes is attained -----

  lemma {:induction false} ExecBoth(s: State, a: seq<Step>, b: seq<Step>, lim: Limits)
    requires Exec(s, a, lim).Some?
    ensures Exec(s, a + b, lim) == Exec(Exec(s, a, lim).value, b, lim)
    decreases |a|
  {
    hide Next;
    if a == [] {
      assert a + b == b;
    } else {
      assert (a + b)[1..] == a[1..] + b;
      ExecBoth(Next(s, a[0], lim).value, a[1..], b, lim);
    }
  }

  lemma {:induction false} CountBoth(a: seq<Step>, b: seq<Step>)
    ensures CountHandled(a + b) == CountHandled(a) + CountHandled(b)
  {
    if a == [] {
      assert a + b == b;
    } else {
      assert (a + b)[1..] == a[1..] + b;
      CountBoth(a[1..], b);
    }
  }

  lemma ExecThen(s: State, a: seq<Step>, step: Step, lim: Limits)
    requires Exec(s, a, lim).Some? && Next(Exec(s, a, lim).value, step, lim).Some?
    ensures Exec(s, a + [step], lim) == Next(Exec(s, a, lim).value, step, lim)
    ensures CountHandled(a + [step]) == CountHandled(a) + if Handled(step) then 1 else 0
  {
    hide Next;
    ExecBoth(s, a, [step], lim);
    CountBoth(a, [step]);
    var s1 := Exec(s, a, lim).value;
    assert [step][1..] == [];
    assert Exec(s1, [step], lim) == Exec(Next(s1, step, lim).value, [], lim);
    assert CountHandled([step]) == (if Handled(step) then 1 else 0) + CountHandled([]);
  }

  /** `n` failures of one task, one after the other. */
  function Failing(id: Id, n: nat): seq<Step> {
    if n == 0 then [] else Failing(id, n - 1) + [Fail(id, "")]
  }

  /** Nothing but the failures of `id` tells `s'` from `s`. */
  ghost predicate SameWork(s: State, s': State, id: Id) {
    && s'.tasks == s.tasks && s'.blocked == s.blocked && s'.completed == s.completed
    && s'.stepCount == s.stepCount && s'.activeTaskId == None
    && forall k | k != id :: RetryCount(s', k) == RetryCount(s, k)
  }

  lemma OneRetry(s: State, id: Id, lim: Limits)
    requires Inv(s, lim) && Runnable(s, id, lim) && RetryCount(s, id) + 1 < lim.maxRetriesPerTask
    ensures Next(s, Fail(id, ""), lim).Some?
    ensures var s' := Next(s, Fail(id, ""), lim).value;
            Inv(s', lim) && SameWork(s, s', id) && RetryCount(s', id) == RetryCount(s, id) + 1
  {
    hide Inv, FailTask, RetryCount, Runnable, Clean;
    RunnableTask(s, id, lim);
    IdIsKey(s, id, lim);
    StepKeepsInv(s, Fail(id, ""), lim);
    FailBelowLimit(s, s.tasks[id], "", lim.maxRetriesPerTask);
    FailCounts(s, s.tasks[id], "", lim.maxRetriesPerTask);
  }

  lemma {:induction false} FailsBelowLimit(s: State, id: Id, n: nat, lim: Limits)
    requires Inv(s, lim) && s.activeTaskId == None && Runnable(s, id, lim) && RetryCount(s, id) == 0
    requires n == 0 || n < lim.maxRetriesPerTask
    ensures Exec(s, Failing(id, n), lim).Some? && CountHandled(Failing(id, n)) == n
    ensures var s' := Exec(s, Failing(id, n), lim).value;
            Inv(s', lim) && SameWork(s, s', id) && RetryCount(s', id) == n && Runnable(s', id, lim)
  {
    hide Inv, Next, RetryCount, IsExecutable;
    if n > 0 {
      FailsBelowLimit(s, id, n - 1, lim);
      var s1 := Exec(s, Failing(id, n - 1), lim).value;
      OneRetry(s1, id, lim);
      ExecThen(s, Failing(id, n - 1), Fail(id, ""), lim);
    }
  }

  /** The last failure of a task that splits it, and the parts worked off one after the other. */
  function UntilSplit(id: Id, k: nat): seq<Step>
    requires k > 0
  {
    Failing(id, k - 1) + [Fail(id, "")]
  }

  function UntilDone(id: Id, k: nat): seq<Step>
    requires k > 0
  {
    Failing(id, k - 1) + [Complete(id)]
  }

  /** A task fails `k - 1` times, and is then completed. */
  lemma WorkedOff(s: State, id: Id, lim: Limits)
    requires id in s.tasks
    requires Inv(s, lim) && s.activeTaskId == None && Runnable(s, id, lim) && RetryCount(s, id) == 0
    ensures var steps := UntilDone(id, Patience(lim));
            && Exec(s, steps, lim).Some? && CountHandled(steps) == Patience(lim)
            && var s' := Exec(s, steps, lim).value;
            && Inv(s', lim) && s'.activeTaskId == None && s'.stepCount == s.stepCount + 1
            && s'.tasks == s.tasks[id := s.tasks[id].(status := Done)]
            && s'.blocked == s.blocked && (forall k :: k in s'.completed <==> k in s.completed || k == id)
            && forall k | k != id :: RetryCount(s', k) == RetryCount(s, k)
  {
    hide Inv, RetryCount, IsExecutable, Clean, FailTask, RecordFailure, ShouldStop, Exec;
    var n := Patience(lim) - 1;
    FailsBelowLimit(s, id, n, lim);
    var s1 := Exec(s, Failing(id, n), lim).value;
    IdIsKey(s1, id, lim);
    StepKeepsInv(s1, Complete(id), lim);
    ExecThen(s, Failing(id, n), Complete(id), lim);
    CompletionKeepsRetries(s1, s1.tasks[id]);
  }

  lemma CompletionKeepsRetries(s: State, t: Task)
    ensures forall k :: RetryCount(CompleteTask(s, t), k) == RetryCount(s, k)
  {
  }

  /** A task fails `k` times, and is split. */
  lemma WornOut(s: State, id: Id, lim: Limits)
    requires id in s.tasks && s.tasks[id].splitFrom.None?
    requires Inv(s, lim) && s.activeTaskId == None && Runnable(s, id, lim) && RetryCount(s, id) == 0
    ensures var steps := UntilSplit(id, Patience(lim));
            && Exec(s, steps, lim).Some? && CountHandled(steps) == Patience(lim)
            && var s' := Exec(s, steps, lim).value;
            && Inv(s', lim) && s'.activeTaskId == None && s'.stepCount == s.stepCount
            && s'.tasks == SplitTasks(s.tasks, s.tasks[id]) && SplitInto(s.tasks, s'.tasks, id)
            && s'.completed == s.completed && (forall k | k in s'.blocked :: k in s.blocked)
            && forall k | k != id :: RetryCount(s', k) == RetryCount(s, k)
  {
    hide Inv, RetryCount, IsExecutable, Clean, FailTask, ShouldStop, Exec, SplitTasks, FreshParts, SplitInto;
    var n := Patience(lim) - 1;
    FailsBelowLimit(s, id, n, lim);
    var s1 := Exec(s, Failing(id, n), lim).value;
    IdIsKey(s1, id, lim);
    IsKeyed(s1, lim);
    RunnableTask(s1, id, lim);
    PartsAreFree(s1, id, lim);
    StepKeepsInv(s1, Fail(id, ""), lim);
    ExecThen(s, Failing(id, n), Fail(id, ""), lim);
    FailCounts(s1, s1.tasks[id], "", lim.maxRetriesPerTask);
    FailSplits(s1, id, "", lim.maxRetriesPerTask);
  }

  /**
   * A task may run exactly when there is room in the step limit, no active task has spent its retries, and it is to do
   * and everything it depends on is finished.
   */
  lemma MayRun(s: State, id: Id, lim: Limits)
    requires Inv(s, lim) && id in s.tasks
    ensures Runnable(s, id, lim) <==>
      && s.stepCount < lim.maxStepsPerRun && !Wedged(s, lim)
      && s.tasks[id].status == Todo && forall d | d in s.tasks[id].dependsOn :: d in s.completed
  {
    hide Sound, DeadLettersSpent, RetryCount;
    IdIsKey(s, id, lim);
    assert CleanTask(s.tasks, s.tasks[id]);
  }

  lemma OnlyTaskWaitsForNone(s: State, id: Id, lim: Limits)
    requires Inv(s, lim) && s.tasks.Keys == {id}
    ensures forall d :: d !in s.tasks[id].dependsOn
  {
    hide Agreed, DeadLettersSpent, Acyclic;
    NoSelfDependency(DepsOf(s.tasks), id);
    assert CleanTask(s.tasks, s.tasks[id]);
    assert forall d | d in s.tasks[id].dependsOn :: d in s.tasks.Keys;
  }

  /** What the parts of a split task wait for. */
  lemma PartsWait(tasks: Tasks, id: Id)
    requires id in tasks && Keyed(tasks)
    ensures var after := SplitTasks(tasks, tasks[id]);
            && FirstPart(id) in after && after[FirstPart(id)].dependsOn == tasks[id].dependsOn
            && SecondPart(id) in after && after[SecondPart(id)].dependsOn == [FirstPart(id)]
            && FirstPart(id) != id && SecondPart(id) != id && FirstPart(id) != SecondPart(id)
  {
    hide FirstPart, SecondPart, SplitTasks, SplitTaskForRetry;
    PartIdsDistinct(id, id);
    SplitStores(tasks, id);
    PlannedDependencies(tasks[id]);
  }

  /** From a state with nothing but a task that is to do: its last failure splits it, and the parts are worked off. */
  function Worst(id: Id, k: nat): seq<Step>
    requires k > 0
  {
    UntilSplit(id, k) + (UntilDone(FirstPart(id), k) + UntilDone(SecondPart(id), k))
  }

  lemma {:induction false} FailingHasNoResume(id: Id, n: nat)
    ensures forall step | step in Failing(id, n) :: !step.Resume?
  {
    if n > 0 { FailingHasNoResume(id, n - 1); }
  }

  lemma WorstHasNoResume(id: Id, k: nat)
    requires k > 0
    ensures forall step | step in Worst(id, k) :: !step.Resume?
  {
    hide FirstPart, SecondPart, Failing;
    FailingHasNoResume(id, k - 1);
    FailingHasNoResume(FirstPart(id), k - 1);
    FailingHasNoResume(SecondPart(id), k - 1);
  }

  /** After the split, the parts one after the other. */
  lemma PartsWorkedOff(s: State, id: Id, lim: Limits)
    requires Inv(s, lim) && s.activeTaskId == None && s.stepCount + 2 <= lim.maxStepsPerRun
    requires IsPart(s.tasks, FirstPart(id), id) && IsPart(s.tasks, SecondPart(id), id)
    requires FirstPart(id) != SecondPart(id)
    requires forall d :: d !in s.tasks[FirstPart(id)].dependsOn
    requires s.tasks[SecondPart(id)].dependsOn == [FirstPart(id)]
    requires RetryCount(s, FirstPart(id)) == 0 && RetryCount(s, SecondPart(id)) == 0
    ensures var k := Patience(lim);
            var steps := UntilDone(FirstPart(id), k) + UntilDone(SecondPart(id), k);
            Exec(s, steps, lim).Some? && CountHandled(steps) == 2 * k
  {
    hide Inv, RetryCount, Runnable, Exec, FirstPart, SecondPart, UntilDone;
    var k, first, second := Patience(lim), FirstPart(id), SecondPart(id);
    MayRun(s, first, lim);
    WorkedOff(s, first, lim);
    var a := UntilDone(first, k);
    var s1 := Exec(s, a, lim).value;
    MayRun(s1, second, lim);
    WorkedOff(s1, second, lim);
    var b := UntilDone(second, k);
    ExecBoth(s, a, b, lim);
    CountBoth(a, b);
  }

  /**
   * The bound on handled outcomes cannot be improved: every fresh backlog of one task that was never split, with
   * steps to spare, has a run of exactly `3 * max(1, limit)` of them.
   */
  lemma BoundIsAttained(s: State, id: Id, lim: Limits)
    requires FreshBacklog(s) && s.tasks.Keys == {id} && s.tasks[id].splitFrom.None?
    requires s.retries == map[] && s.stepCount + 2 <= lim.maxStepsPerRun
    ensures exists steps: seq<Step> ::
              && (forall step | step in steps :: !step.Resume?)
              && Exec(s, steps, lim).Some? && CountHandled(steps) == 3 * Max(1, lim.maxRetriesPerTask)
  {
    hide Inv, Runnable, Exec, FirstPart, SecondPart, UntilSplit, UntilDone, SplitTasks, Worst;
    FreshBacklogInv(s, lim);
    var k := Patience(lim);
    OnlyTaskWaitsForNone(s, id, lim);
    MayRun(s, id, lim);
    WornOut(s, id, lim);
    var a := UntilSplit(id, k);
    var s1 := Exec(s, a, lim).value;
    IsKeyed(s, lim);
    PartsWait(s.tasks, id);
    PartsWorkedOff(s1, id, lim);
    WorstRuns(s, id, lim, a, UntilDone(FirstPart(id), k) + UntilDone(SecondPart(id), k));
  }

  lemma WorstRuns(s: State, id: Id, lim: Limits, a: seq<Step>, b: seq<Step>)
    requires a == UntilSplit(id, Patience(lim))
    requires b == UntilDone(FirstPart(id), Patience(lim)) + UntilDone(SecondPart(id), Patience(lim))
    requires Exec(s, a, lim).Some? && CountHandled(a) == Patience(lim)
    requires Exec(Exec(s, a, lim).value, b, lim).Some? && CountHandled(b) == 2 * Patience(lim)
    ensures forall step | step in Worst(id, Patience(lim)) :: !step.Resume?
    ensures Exec(s, Worst(id, Patience(lim)), lim).Some?
    ensures CountHandled(Worst(id, Patience(lim))) == 3 * Max(1, lim.maxRetriesPerTask)
  {
    hide FirstPart, SecondPart, Failing, Exec, CountHandled;
    ExecBoth(s, a, b, lim);
    CountBoth(a, b);
    WorstHasNoResume(id, Patience(lim));
  }
}
