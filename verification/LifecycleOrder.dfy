/** Tasks are worked on, and finished, in dependency order. */
module LifecycleOrder {
  import opened Graph
  import opened Options
  import opened Backlog
  import opened TaskSplitting
  import opened Lifecycle
  import opened LifecycleRuns

  /** What a finished task depends on is finished. */
  predicate DoneClosed(tasks: Tasks) {
    forall k, d | k in tasks && tasks[k].status == Done && d in tasks[k].dependsOn :: IsDone(tasks, d)
  }

  predicate IsDone(tasks: Tasks, k: Id) {
    k in tasks && tasks[k].status == Done
  }

  /** A change to an unfinished task that does not finish it. */
  lemma UnfinishedChange(tasks: Tasks, id: Id, t: Task)
    requires DoneClosed(tasks) && id in tasks && tasks[id].status != Done && t.status != Done
    ensures DoneClosed(tasks[id := t])
  {
    var after := tasks[id := t];
    forall k, d | k in after && after[k].status == Done && d in after[k].dependsOn ensures IsDone(after, d) {
      assert IsDone(tasks, d);
    }
  }

  lemma CompletionKeepsOrder(s: State, id: Id, lim: Limits)
    requires Inv(s, lim) && DoneClosed(s.tasks) && Runnable(s, id, lim)
    ensures DoneClosed(CompleteTask(s, s.tasks[id]).tasks)
  {
    hide Sound, Agreed, DeadLettersSpent, CleanRecords;
    IdIsKey(s, id, lim);
    var after := CompleteTask(s, s.tasks[id]).tasks;
    forall k, d | k in after && after[k].status == Done && d in after[k].dependsOn ensures IsDone(after, d) {
      if k == id { assert d in s.completed; } else { assert IsDone(s.tasks, d); }
    }
  }

  /** A completion finishes its task, lists it once, spends a step, and changes no other task and no count. */
  lemma CompletionEffect(s: State, id: Id, lim: Limits)
    requires Inv(s, lim) && Next(s, Complete(id), lim).Some?
    ensures var s' := Next(s, Complete(id), lim).value;
            && id in s.tasks && s'.tasks == s.tasks[id := s.tasks[id].(status := Done)]
            && id !in s.completed && s'.completed == s.completed + [id] && s'.blocked == s.blocked
            && s'.activeTaskId == None && s'.stepCount == s.stepCount + 1
            && s'.retries == s.retries && s'.failures == s.failures
            && s'.artifacts == s.artifacts + [id, id]
            && s'.features == s.features && s'.epics == s.epics
  {
    hide Inv, Clean, ShouldStop;
    IdIsKey(s, id, lim);
    NotListed(s, id, lim);
    assert Next(s, Complete(id), lim).value == CompleteTask(s, s.tasks[id]);
    hide Next;
  }

  lemma NotWaitedFor(tasks: Tasks, k: Id, p: Id)
    requires DoneClosed(tasks) && IsDone(tasks, k) && !IsDone(tasks, p)
    ensures p !in tasks[k].dependsOn
  {
  }

  lemma SplitKeepsOrder(tasks: Tasks, p: Id)
    requires p in tasks && Keyed(tasks) && FreshParts(tasks, p) && DoneClosed(tasks) && tasks[p].status == Todo
    ensures DoneClosed(SplitTasks(tasks, tasks[p]))
  {
    hide FirstPart, SecondPart, SplitTasks, SplitTaskForRetry, Unique, Replace;
    SplitStores(tasks, p);
    PartsAreToDo(tasks[p]);
    var after := SplitTasks(tasks, tasks[p]);
    forall k, d | k in after && after[k].status == Done && d in after[k].dependsOn ensures IsDone(after, d) {
      assert k in tasks && k != p && tasks[k].status == Done;
      NotWaitedFor(tasks, k, p);
      assert after[k] == tasks[k];
      assert IsDone(tasks, d);
    }
  }

  lemma PartsAreToDo(t: Task)
    ensures SplitTaskForRetry(t).first.status == Todo && SplitTaskForRetry(t).second.status == Todo
  {
    hide FirstPart, SecondPart, NarrowChange, RemainingPath;
  }

  lemma FailureKeepsOrder(s: State, id: Id, f: string, lim: Limits)
    requires Inv(s, lim) && DoneClosed(s.tasks) && id in s.tasks && s.tasks[id].status == Todo
    ensures DoneClosed(FailTask(s, s.tasks[id], f, lim.maxRetriesPerTask).tasks)
  {
    hide DoneClosed, SplitTasks, FirstPart, SecondPart, Clean, Agreed, Acyclic, NoSupersededDependency,
         DeadLettersSpent;
    IdIsKey(s, id, lim);
    var t := s.tasks[id];
    match NextFailureAction(t, RetryCount(s, t.id), lim.maxRetriesPerTask) {
      case Retry =>
      case Split => SplitKeepsOrder(s.tasks, id);
      case Block => UnfinishedChange(s.tasks, id, t.(status := Status.Blocked));
    }
  }

  lemma ResumeKeepsOrder(s: State, f: string)
    requires DoneClosed(s.tasks) && ResumeFailure(s, f).Some?
    ensures DoneClosed(ResumeFailure(s, f).value.tasks)
  {
    hide DoneClosed;
    var taskId := s.failures[FindFailure(s.failures, f)].taskId;
    if taskId in s.tasks && s.tasks[taskId].status == Status.Blocked {
      UnfinishedChange(s.tasks, taskId, s.tasks[taskId].(status := Todo));
    }
  }

  lemma StepKeepsOrder(s: State, step: Step, lim: Limits)
    requires Inv(s, lim) && DoneClosed(s.tasks) && Next(s, step, lim).Some?
    ensures DoneClosed(Next(s, step, lim).value.tasks)
  {
    hide Inv, DoneClosed, Clean, CompleteTask, FailTask, ResumeFailure, IsExecutable, ShouldStop;
    match step {
      case Complete(id) => CompletionKeepsOrder(s, id, lim);
      case Fail(id, f) => RunnableIsToDo(s, id, lim); FailureKeepsOrder(s, id, f, lim);
      case Interrupted(id, f) =>
      case Resume(f) => ResumeKeepsOrder(s, f);
      case Replay(f) =>
    }
  }

  lemma RunnableIsToDo(s: State, id: Id, lim: Limits)
    requires Runnable(s, id, lim)
    ensures id in s.tasks && s.tasks[id].status == Todo
  {
  }

  /** Over whole runs, with splits and their rewired dependencies: nothing is finished before what it depends on. */
  lemma {:induction false} RunKeepsOrder(s: State, steps: seq<Step>, lim: Limits)
    requires Inv(s, lim) && DoneClosed(s.tasks) && Exec(s, steps, lim).Some?
    ensures DoneClosed(Exec(s, steps, lim).value.tasks)
    decreases |steps|
  {
    hide Inv, DoneClosed, Next;
    if steps != [] {
      StepKeepsOrder(s, steps[0], lim);
      NextKeepsInv(s, steps[0], lim);
      RunKeepsOrder(Next(s, steps[0], lim).value, steps[1..], lim);
    }
  }

  /** So every run from a fresh backlog keeps the invariant and the order. */
  lemma FreshRunsKeepOrder(s: State, steps: seq<Step>, lim: Limits)
    requires FreshBacklog(s) && Exec(s, steps, lim).Some?
    ensures Inv(Exec(s, steps, lim).value, lim) && DoneClosed(Exec(s, steps, lim).value.tasks)
  {
    hide Inv, Exec, Acyclic, CleanRecords, FreshParts;
    FreshBacklogInv(s, lim);
    RunKeepsInv(s, steps, lim);
    RunKeepsOrder(s, steps, lim);
  }

  lemma {:induction false} ChainIsDone(tasks: Tasks, x: Id, y: Id, n: nat)
    requires DoneClosed(tasks) && IsDone(tasks, y) && Walk(DepsOf(tasks), x, y, n)
    ensures IsDone(tasks, x)
    decreases n
  {
    if n > 0 {
      var z :| Walk(DepsOf(tasks), x, z, n - 1) && Edge(DepsOf(tasks), z, y);
      ChainIsDone(tasks, x, z, n - 1);
    }
  }

  /** A run only ever works on a task all of whose predecessors, direct or not, are finished. */
  lemma PredecessorsAreDone(s: State, id: Id, x: Id, lim: Limits)
    requires Inv(s, lim) && DoneClosed(s.tasks) && Runnable(s, id, lim) && Precedes(DepsOf(s.tasks), x, id)
    ensures IsDone(s.tasks, x)
  {
    hide Sound, Agreed, DeadLettersSpent, CleanRecords, DoneClosed;
    var d := LastEdge(DepsOf(s.tasks), x, id);
    assert IsDone(s.tasks, d) by { assert d in s.completed; }
    var n: nat :| Walk(DepsOf(s.tasks), x, d, n);
    ChainIsDone(s.tasks, x, d, n);
  }
}
