/** What every sequence of run outcomes and operator commands keeps, and where it must end. */
module LifecycleRuns {
  import opened Graph
  import opened Options
  import opened Sorting
  import opened Backlog
  import opened TaskSplitting
  import opened Lifecycle

  /**
   * One committed change: a run that completes or fails a task, a run that dies after recording the failure
   * but before acting on it, or an operator who resumes or replays a failure.
   */
  datatype Step =
    | Complete(id: Id)
    | Fail(id: Id, failureId: string)
    | Interrupted(id: Id, failureId: string)
    | Resume(failureId: string)
    | Replay(failureId: string)

  /** A run may work on a task: selection and the forced run apply the same test. */
  predicate Runnable(s: State, id: Id, lim: Limits) {
    !ShouldStop(s, lim) && id in s.tasks && IsExecutable(s.completed, s.blocked, s.tasks[id])
  }

  function Outcome(s: State, step: Step, lim: Limits): Option<State> {
    match step
    case Complete(id) =>
      if Runnable(s, id, lim) then Some(CompleteTask(s, s.tasks[id])) else None
    case Fail(id, f) =>
      if Runnable(s, id, lim) then Some(FailTask(s, s.tasks[id], f, lim.maxRetriesPerTask)) else None
    case Interrupted(id, f) =>
      if Runnable(s, id, lim) then Some(RecordFailure(s, s.tasks[id], f, lim.maxRetriesPerTask)) else None
    case Resume(f) => ResumeFailure(s, f)
    case Replay(f) => ReplayFailure(s, f)
  }

  /** Saving validates the state and rejects an unclean one. */
  function Next(s: State, step: Step, lim: Limits): Option<State> {
    var r := Outcome(s, step, lim);
    if r.Some? && Clean(r.value) then r else None
  }

  function Exec(s: State, steps: seq<Step>, lim: Limits): Option<State>
    decreases |steps|
  {
    if steps == [] then Some(s)
    else
      var r := Next(s, steps[0], lim);
      if r.None? then None else Exec(r.value, steps[1..], lim)
  }

  // ----- The invariant -----

  predicate Open(t: Task) {
    t.status == Todo || t.status == Status.Blocked
  }

  /** The id lists and the task statuses tell the same story; no task is in a status the runtime never assigns. */
  predicate Agreed(tasks: Tasks, completed: seq<Id>, blocked: seq<Id>) {
    forall k | k in tasks ::
      && !(tasks[k].status.InProgress? || tasks[k].status.Review? || tasks[k].status.Testing?)
      && (tasks[k].status == Done <==> k in completed)
      && (tasks[k].status == Status.Blocked <==> k in blocked)
  }

  predicate NoSupersededDependency(tasks: Tasks) {
    forall k, d | k in tasks && d in tasks[k].dependsOn :: d in tasks ==> tasks[d].status != Superseded
  }

  /** The ids that splitting an open task would use are not taken. */
  predicate PartsFree(tasks: Tasks) {
    forall k | k in tasks && Open(tasks[k]) && tasks[k].splitFrom.None? :: FreshParts(tasks, k)
  }

  /** What the invariant says about the task graph alone. */
  ghost predicate Sound(tasks: Tasks) {
    Keyed(tasks) && Acyclic(DepsOf(tasks)) && NoSupersededDependency(tasks) && PartsFree(tasks)
  }

  predicate DeadLettersSpent(failures: seq<Failure>, retries: map<Id, nat>, lim: Limits) {
    forall f | f in failures && f.status == DeadLettered :: GetOr(retries, f.taskId, 0) >= lim.maxRetriesPerTask
  }

  ghost predicate Inv(s: State, lim: Limits) {
    && Clean(s)
    && Sound(s.tasks)
    && Agreed(s.tasks, s.completed, s.blocked)
    && DeadLettersSpent(s.failures, s.retries, lim)
  }

  /** A backlog nobody has worked on yet: valid records, all to do, no cycle, no missing id, and room for the parts. */
  ghost predicate FreshBacklog(s: State) {
    && CleanRecords(s.tasks, s.features, s.epics) && Keyed(s.tasks) && Acyclic(DepsOf(s.tasks))
    && (forall k | k in s.tasks :: s.tasks[k].status == Todo)
    && (forall k | k in s.tasks && s.tasks[k].splitFrom.None? :: FreshParts(s.tasks, k))
    && s.completed == [] && s.blocked == [] && s.failures == [] && s.activeTaskId == None
  }

  /** The invariant holds at the start, so everything below holds of every run from a fresh backlog. */
  lemma FreshBacklogInv(s: State, lim: Limits)
    requires FreshBacklog(s)
    ensures Inv(s, lim)
  {
    hide Acyclic, CleanRecords, FreshParts, FirstPart, SecondPart;
  }

  lemma CleanIsClosed(s: State)
    requires CleanRecords(s.tasks, s.features, s.epics)
    ensures Closed(DepsOf(s.tasks))
  {
    forall t, d | t in s.tasks && d in s.tasks[t].dependsOn ensures d in s.tasks {
      assert CleanTask(s.tasks, s.tasks[t]);
    }
  }

  lemma ClosedTasks(tasks: Tasks, k: Id)
    requires Closed(DepsOf(tasks)) && k in tasks
    ensures forall d | d in tasks[k].dependsOn :: d in tasks
  {
    forall d | d in tasks[k].dependsOn ensures d in tasks {
      var g := DepsOf(tasks);
      assert k in g && d in g[k];
      assert d in g;
    }
  }

  /** Changing the status of one open task, other than to superseded, disturbs neither the graph nor the records. */
  lemma StatusChange(s: State, id: Id, status: Status)
    requires CleanRecords(s.tasks, s.features, s.epics) && Sound(s.tasks)
    requires id in s.tasks && Open(s.tasks[id]) && status != Superseded
    ensures var tasks := s.tasks[id := s.tasks[id].(status := status)];
            Sound(tasks) && CleanRecords(tasks, s.features, s.epics)
  {
    hide FirstPart, SecondPart, Acyclic;
    var tasks := s.tasks[id := s.tasks[id].(status := status)];
    assert DepsOf(tasks) == DepsOf(s.tasks);
    forall k | k in tasks ensures CleanTask(tasks, tasks[k]) {
      assert CleanTask(s.tasks, s.tasks[k]);
    }
    forall f | f in s.features ensures CleanFeature(tasks, s.features[f], f, s.epics) {
      assert CleanFeature(s.tasks, s.features[f], f, s.epics);
    }
  }

  /** One task turns done or blocked, or a blocked one becomes open again, and its id moves along. */
  lemma ListsFollow(tasks: Tasks, id: Id, status: Status, blocked: seq<Id>, completed: seq<Id>,
                    blocked': seq<Id>, completed': seq<Id>, failures: seq<Failure>,
                    artifacts: seq<Id>, artifacts': seq<Id>)
    requires CleanLists(tasks, blocked, completed, failures, artifacts) && Agreed(tasks, completed, blocked)
    requires id in tasks && status in {Todo, Done, Status.Blocked}
    requires forall k :: k in completed' <==> if k == id then status == Done else k in completed
    requires forall k :: k in blocked' <==> if k == id then status == Status.Blocked else k in blocked
    requires artifacts <= artifacts' && (status == Status.Blocked ==> id in artifacts')
    ensures var tasks' := tasks[id := tasks[id].(status := status)];
            CleanLists(tasks', blocked', completed', failures, artifacts') && Agreed(tasks', completed', blocked')
  {
    var tasks' := tasks[id := tasks[id].(status := status)];
    forall b | b in blocked' ensures CleanBlocked(tasks', failures, artifacts', b) {
      assert b != id ==> CleanBlocked(tasks, failures, artifacts, b);
    }
  }

  lemma CompleteKeepsInv(s: State, id: Id, lim: Limits)
    requires Inv(s, lim) && id in s.tasks && s.tasks[id].status == Todo
    ensures Inv(CompleteTask(s, s.tasks[id]), lim)
  {
    IdIsKey(s, id, lim);
    NotListed(s, id, lim);
    StatusChange(s, id, Done);
    hide Sound, CleanRecords, CleanLists, Agreed, DeadLettersSpent;
    var s' := CompleteTask(s, s.tasks[id]);
    ListsFollow(s.tasks, id, Done, s.blocked, s.completed, s'.blocked, s'.completed, s.failures,
                s.artifacts, s'.artifacts);
  }

  lemma NotListed(s: State, id: Id, lim: Limits)
    requires Inv(s, lim) && id in s.tasks
    ensures s.tasks[id].status == Todo ==> id !in s.blocked && id !in s.completed
    ensures s.tasks[id].status == Status.Blocked ==> id in s.blocked && id !in s.completed
  {
    hide Sound, Clean, DeadLettersSpent;
  }

  lemma RecordKeepsInv(s: State, id: Id, failureId: string, lim: Limits)
    requires Inv(s, lim) && id in s.tasks && s.tasks[id].status == Todo
    ensures Inv(RecordFailure(s, s.tasks[id], failureId, lim.maxRetriesPerTask), lim)
    ensures Inv(RecordFailure(s, s.tasks[id], failureId, lim.maxRetriesPerTask).(activeTaskId := None), lim)
  {
    hide Sound, CleanRecords, Agreed, CleanLists;
    var s' := RecordFailure(s, s.tasks[id], failureId, lim.maxRetriesPerTask);
    MoreFailures(s.tasks, s.blocked, s.completed, s.failures, s'.failures, s.artifacts);
  }

  /** Recording more failures, or marking them, upsets no list as long as each task keeps its failures. */
  lemma MoreFailures(tasks: Tasks, blocked: seq<Id>, completed: seq<Id>,
                     failures: seq<Failure>, failures': seq<Failure>, artifacts: seq<Id>)
    requires CleanLists(tasks, blocked, completed, failures, artifacts)
    requires |failures| <= |failures'| && forall i | 0 <= i < |failures| :: failures'[i].taskId == failures[i].taskId
    ensures CleanLists(tasks, blocked, completed, failures', artifacts)
  {
    forall b | b in blocked ensures CleanBlocked(tasks, failures', artifacts, b) {
      assert CleanBlocked(tasks, failures, artifacts, b);
      if f :| f in failures && f.taskId == b {
        var i :| 0 <= i < |failures| && failures[i] == f;
        assert failures'[i] in failures';
      }
    }
  }

  lemma BlockKeepsInv(s: State, id: Id, lim: Limits)
    requires Inv(s, lim) && id in s.tasks && s.tasks[id].status == Todo
    ensures Inv(BlockTask(s, s.tasks[id]), lim)
  {
    IdIsKey(s, id, lim);
    NotListed(s, id, lim);
    StatusChange(s, id, Status.Blocked);
    hide Sound, CleanRecords, CleanLists, Agreed, DeadLettersSpent;
    var s' := BlockTask(s, s.tasks[id]);
    ListsFollow(s.tasks, id, Status.Blocked, s.blocked, s.completed, s'.blocked, s'.completed,
                s.failures, s.artifacts, s'.artifacts);
  }

  /** Marking a failure as resumed or replayed. */
  lemma MarkKeepsInv(s: State, i: nat, status: FailureStatus, lim: Limits)
    requires Inv(s, lim) && i < |s.failures| && status != DeadLettered
    ensures Inv(s.(failures := s.failures[i := s.failures[i].(status := status)]), lim)
  {
    hide Sound, CleanRecords, Agreed, CleanLists;
    var f := s.failures[i].(status := status);
    assert forall g | g in s.failures[i := f] :: g in s.failures || g == f;
    MoreFailures(s.tasks, s.blocked, s.completed, s.failures, s.failures[i := f], s.artifacts);
  }

  lemma UnblockKeepsInv(s: State, id: Id, lim: Limits)
    requires Inv(s, lim) && id in s.tasks && s.tasks[id].status == Status.Blocked
    ensures Inv(s.(tasks := s.tasks[id := s.tasks[id].(status := Todo)], blocked := Without(s.blocked, id)), lim)
  {
    NotListed(s, id, lim);
    StatusChange(s, id, Todo);
    hide Sound, CleanRecords, CleanLists, Agreed, DeadLettersSpent;
    ListsFollow(s.tasks, id, Todo, s.blocked, s.completed, Without(s.blocked, id), s.completed,
                s.failures, s.artifacts, s.artifacts);
  }

  lemma ResumeKeepsInv(s: State, failureId: string, lim: Limits)
    requires Inv(s, lim) && ResumeFailure(s, failureId).Some?
    ensures Inv(ResumeFailure(s, failureId).value, lim)
  {
    var i := FindFailure(s.failures, failureId);
    MarkKeepsInv(s, i, Resumed, lim);
    var f := s.failures[i];
    var marked := s.(failures := s.failures[i := f.(status := Resumed)]);
    assert f.taskId in s.tasks ==> s.tasks[f.taskId].id == f.taskId;
    hide Sound, Clean, Agreed, DeadLettersSpent;
    if f.taskId in s.tasks && s.tasks[f.taskId].status == Status.Blocked {
      UnblockKeepsInv(marked, f.taskId, lim);
    }
  }

  lemma ReplayKeepsInv(s: State, failureId: string, lim: Limits)
    requires Inv(s, lim) && ReplayFailure(s, failureId).Some? && Clean(ReplayFailure(s, failureId).value)
    ensures Inv(ReplayFailure(s, failureId).value, lim)
  {
    MarkKeepsInv(s, FindFailure(s.failures, failureId), Replayed, lim);
    hide Sound, Clean;
  }

  /** What a split leaves alone in the tasks other than the parent. */
  lemma SplitKeepsOthers(tasks: Tasks, p: Id)
    requires p in tasks && Keyed(tasks) && FreshParts(tasks, p)
    ensures var after := SplitTasks(tasks, tasks[p]);
            && after.Keys == tasks.Keys + {FirstPart(p), SecondPart(p)} && Keyed(after)
            && (forall k | k in tasks ::
                  && after[k].featureId == tasks[k].featureId && after[k].splitFrom == tasks[k].splitFrom
                  && after[k].acceptanceCriteria == tasks[k].acceptanceCriteria
                  && after[k].status == if k == p then Superseded else tasks[k].status)
            && (forall k | k in {FirstPart(p), SecondPart(p)} ::
                  && after[k].featureId == tasks[p].featureId && after[k].splitFrom == Some(p)
                  && after[k].acceptanceCriteria != [] && after[k].status == Todo)
            && p !in {FirstPart(p), SecondPart(p)}
  {
    hide FirstPart, SecondPart, SplitTasks, SplitAcceptanceCriteria, BoostPriority, Unique, Replace;
    PartIdsDistinct(p, p);
    SplitStores(tasks, p);
    PlannedDependencies(tasks[p]);
    CriteriaSurvive(tasks[p]);
  }

  lemma SplitKeepsSound(tasks: Tasks, id: Id)
    requires Sound(tasks) && Closed(DepsOf(tasks)) && id in tasks && FreshParts(tasks, id)
    ensures var after := SplitTasks(tasks, tasks[id]); Sound(after) && Closed(DepsOf(after))
  {
    hide FirstPart, SecondPart, SplitTasks, Acyclic, Expands, FreshParts, PartsFree;
    var after := SplitTasks(tasks, tasks[id]);
    SplitPreservesPrecedence(tasks, id);
    NoSelfDependency(DepsOf(tasks), id);
    SplitKeepsOthers(tasks, id);
    SplitKeepsParts(tasks, id);
    forall k, d | k in after && d in after[k].dependsOn ensures d in after && after[d].status != Superseded {
      SplitDependency(tasks, id, k, d);
    }
  }

  lemma SplitDependency(tasks: Tasks, id: Id, k: Id, d: Id)
    requires id in tasks && Keyed(tasks) && FreshParts(tasks, id) && Closed(DepsOf(tasks))
    requires NoSupersededDependency(tasks) && !Edge(DepsOf(tasks), id, id)
    requires Edge(DepsOf(SplitTasks(tasks, tasks[id])), d, k)
    ensures var after := SplitTasks(tasks, tasks[id]); d in after && after[d].status != Superseded
  {
    hide FirstPart, SecondPart, SplitTasks;
    var g := DepsOf(tasks);
    SplitKeepsOthers(tasks, id);
    EdgesAfterSplit(tasks, id);
    assert ExpandedEdge(g, id, FirstPart(id), SecondPart(id), d, k);
    if d !in {FirstPart(id), SecondPart(id)} {
      var j := if k == FirstPart(id) then id else k;
      assert Edge(g, d, j);
      assert d in tasks[j].dependsOn && d in g;
    }
  }

  lemma NoSelfDependency(g: Deps, id: Id)
    requires Acyclic(g)
    ensures !Edge(g, id, id)
  {
    if Edge(g, id, id) { EdgePrecedes(g, id, id); }
  }

  lemma SplitKeepsParts(tasks: Tasks, id: Id)
    requires Keyed(tasks) && PartsFree(tasks) && id in tasks && FreshParts(tasks, id)
    ensures PartsFree(SplitTasks(tasks, tasks[id]))
  {
    hide FirstPart, SecondPart, SplitTasks;
    SplitKeepsOthers(tasks, id);
    var after := SplitTasks(tasks, tasks[id]);
    forall k | k in after && Open(after[k]) && after[k].splitFrom.None? ensures FreshParts(after, k) {
      PartIdsDistinct(k, id);
      PartIdsDistinct(id, k);
      assert k in tasks && Open(tasks[k]);
    }
  }

  lemma SplitKeepsRecords(s: State, id: Id)
    requires CleanRecords(s.tasks, s.features, s.epics) && Keyed(s.tasks) && id in s.tasks && FreshParts(s.tasks, id)
    requires Closed(DepsOf(SplitTasks(s.tasks, s.tasks[id])))
    ensures CleanRecords(SplitTasks(s.tasks, s.tasks[id]), AddToFeature(s.features, s.tasks[id]), s.epics)
  {
    hide FirstPart, SecondPart, SplitTasks;
    SplitKeepsOthers(s.tasks, id);
    var after, features := SplitTasks(s.tasks, s.tasks[id]), AddToFeature(s.features, s.tasks[id]);
    forall k | k in after ensures CleanTask(after, after[k]) {
      if k in s.tasks { assert CleanTask(s.tasks, s.tasks[k]); }
      ClosedTasks(after, k);
    }
    forall f | f in features ensures CleanFeature(after, features[f], f, s.epics) {
      assert CleanFeature(s.tasks, s.features[f], f, s.epics);
    }
    forall e | e in s.epics ensures CleanEpic(features, s.epics[e]) {
      assert CleanEpic(s.features, s.epics[e]);
    }
  }

  lemma SplitKeepsLists(s: State, id: Id)
    requires CleanLists(s.tasks, s.blocked, s.completed, s.failures, s.artifacts)
    requires Agreed(s.tasks, s.completed, s.blocked)
    requires Keyed(s.tasks) && id in s.tasks && FreshParts(s.tasks, id) && s.tasks[id].status == Todo
    ensures var s' := SplitTask(s, s.tasks[id]);
            && CleanLists(s'.tasks, s'.blocked, s'.completed, s'.failures, s'.artifacts)
            && Agreed(s'.tasks, s'.completed, s'.blocked)
  {
    hide FirstPart, SecondPart, SplitTasks;
    SplitKeepsOthers(s.tasks, id);
    var s' := SplitTask(s, s.tasks[id]);
    forall b | b in s'.blocked ensures CleanBlocked(s'.tasks, s'.failures, s'.artifacts, b) {
      assert CleanBlocked(s.tasks, s.failures, s.artifacts, b);
    }
    forall k | k in s'.tasks && k !in s.tasks ensures k !in s.completed && k !in s.blocked {
      assert k in s.blocked ==> CleanBlocked(s.tasks, s.failures, s.artifacts, k);
    }
  }

  lemma PartsAreFree(s: State, id: Id, lim: Limits)
    requires Inv(s, lim) && id in s.tasks && s.tasks[id].status == Todo && s.tasks[id].splitFrom.None?
    ensures FreshParts(s.tasks, id)
  {
    hide Clean, Agreed, DeadLettersSpent, FreshParts;
  }

  lemma SplitKeepsInv(s: State, id: Id, lim: Limits)
    requires Inv(s, lim) && id in s.tasks && s.tasks[id].status == Todo && s.tasks[id].splitFrom.None?
    ensures Inv(SplitTask(s, s.tasks[id]), lim)
  {
    hide FreshParts, SplitTasks, AddToFeature, Acyclic, PartsFree, NoSupersededDependency, Agreed, DeadLettersSpent,
      CleanRecords, CleanLists;
    PartsAreFree(s, id, lim);
    CleanIsClosed(s);
    SplitKeepsSound(s.tasks, id);
    SplitKeepsRecords(s, id);
    SplitKeepsLists(s, id);
    SplitKeepsOthers(s.tasks, id);
  }

  /** Every step keeps the invariant, and apart from a replay none is ever turned away by the validation. */
  lemma StepKeepsInv(s: State, step: Step, lim: Limits)
    requires Inv(s, lim) && Outcome(s, step, lim).Some?
    ensures !step.Replay? ==> Next(s, step, lim).Some?
    ensures Next(s, step, lim).Some? ==> Inv(Next(s, step, lim).value, lim)
  {
    hide CompleteTask, FailTask, RecordFailure, ResumeFailure, ReplayFailure, Clean, Sound, Agreed, DeadLettersSpent;
    match step {
      case Complete(id) => CompleteKeepsInv(s, id, lim);
      case Fail(id, f) => FailKeepsInv(s, id, f, lim);
      case Interrupted(id, f) => RecordKeepsInv(s, id, f, lim);
      case Resume(f) => ResumeKeepsInv(s, f, lim);
      case Replay(f) => if Next(s, step, lim).Some? { ReplayKeepsInv(s, f, lim); }
    }
  }

  lemma FailKeepsInv(s: State, id: Id, f: string, lim: Limits)
    requires Inv(s, lim) && id in s.tasks && s.tasks[id].status == Todo
    ensures Inv(FailTask(s, s.tasks[id], f, lim.maxRetriesPerTask), lim)
  {
    hide Inv, RecordFailure, SplitTask, BlockTask;
    RecordKeepsInv(s, id, f, lim);
    var t := s.tasks[id];
    RecordKeepsTasks(s, t, f, lim);
    IdIsKey(s, id, lim);
    var recorded := RecordFailure(s, t, f, lim.maxRetriesPerTask).(activeTaskId := None);
    match NextFailureAction(t, RetryCount(s, t.id), lim.maxRetriesPerTask) {
      case Retry =>
      case Split => SplitKeepsInv(recorded, id, lim);
      case Block => BlockKeepsInv(recorded, id, lim);
    }
  }

  lemma IdIsKey(s: State, id: Id, lim: Limits)
    requires Inv(s, lim) && id in s.tasks
    ensures s.tasks[id].id == id
  {
  }

  lemma RecordKeepsTasks(s: State, t: Task, failureId: string, lim: Limits)
    ensures RecordFailure(s, t, failureId, lim.maxRetriesPerTask).tasks == s.tasks
  {
  }

  lemma NextKeepsInv(s: State, step: Step, lim: Limits)
    requires Inv(s, lim) && Next(s, step, lim).Some?
    ensures Inv(Next(s, step, lim).value, lim)
  {
    hide Inv, Outcome, Clean;
    StepKeepsInv(s, step, lim);
  }

  /** The invariant over whole runs. */
  lemma {:induction false} RunKeepsInv(s: State, steps: seq<Step>, lim: Limits)
    requires Inv(s, lim) && Exec(s, steps, lim).Some?
    ensures Inv(Exec(s, steps, lim).value, lim)
    decreases |steps|
  {
    hide Inv, Next, Outcome;
    if steps != [] {
      NextKeepsInv(s, steps[0], lim);
      RunKeepsInv(Next(s, steps[0], lim).value, steps[1..], lim);
    }
  }

  // ----- Progress -----

  /** `u` is what a task can end up waiting for: it may run now, or an operator must unblock it. */
  predicate CanMove(s: State, u: Id) {
    u in s.tasks && (IsExecutable(s.completed, s.blocked, s.tasks[u]) || s.tasks[u].status == Status.Blocked)
  }

  ghost predicate WaitsForMover(s: State, t: Id) {
    exists u :: CanMove(s, u) && Reaches(DepsOf(s.tasks), u, t)
  }

  /** Every task still to be done can run, or waits, directly or not, for one that can run or is blocked. */
  lemma TodoWaitsForMover(s: State, lim: Limits, t: Id)
    requires Inv(s, lim) && t in s.tasks && s.tasks[t].status == Todo
    ensures WaitsForMover(s, t)
  {
    CleanIsClosed(s);
    hide FirstPart, SecondPart, Clean, Agreed, PartsFree, NoSupersededDependency, CanMove, WaitsForMover;
    var g := DepsOf(s.tasks);
    var stuck := set k | k in s.tasks && s.tasks[k].status == Todo && !WaitsForMover(s, k);
    if t in stuck {
      forall k | k in stuck ensures k in g && exists d :: d in g[k] && d in stuck {
        var d := StuckDependency(s, lim, k);
      }
      var u := StuckIsUnorderable(g, stuck, t);
      OrderableEverywhere(g, u);
    }
  }

  lemma OrderableEverywhere(g: Deps, u: Id)
    requires Closed(g) && Acyclic(g)
    ensures !Unorderable(g, u)
  {
  }

  lemma StuckDependency(s: State, lim: Limits, k: Id) returns (d: Id)
    requires Inv(s, lim) && k in s.tasks && s.tasks[k].status == Todo && !WaitsForMover(s, k)
    ensures Edge(DepsOf(s.tasks), d, k) && d in s.tasks && s.tasks[d].status == Todo && !WaitsForMover(s, d)
  {
    hide Acyclic, PartsFree;
    var g := DepsOf(s.tasks);
    assert CleanTask(s.tasks, s.tasks[k]);
    assert !CanMove(s, k) by { assert Reaches(g, k, k); }
    d :| d in s.tasks[k].dependsOn && d !in s.completed;
    EdgePrecedes(g, d, k);
    assert !CanMove(s, d) by { assert Reaches(g, d, k); }
    if u :| CanMove(s, u) && Reaches(g, u, d) {
      ReachesTransitive(g, u, d, k);
    }
  }

  /** So selection finds work whenever something is left to do and nothing is blocked. */
  lemma SelectionFindsWork(s: State, lim: Limits, le: (Id, Id) -> bool, listed: seq<Task>)
    requires Inv(s, lim) && TotalOrder(le)
    requires forall t :: t in listed <==> t in s.tasks.Values
    requires exists t | t in s.tasks :: s.tasks[t].status == Todo
    requires forall t | t in s.tasks :: s.tasks[t].status != Status.Blocked
    ensures SelectNextTask(le, s.retries, s.completed, s.blocked, listed).Some?
  {
    var t :| t in s.tasks && s.tasks[t].status == Todo;
    hide Inv;
    TodoWaitsForMover(s, lim, t);
    var u :| CanMove(s, u) && Reaches(DepsOf(s.tasks), u, t);
    assert s.tasks[u] in listed;
    SelectNextTaskIsBest(le, s.retries, s.completed, s.blocked, listed);
  }

  // ----- Termination -----

  function Max(a: int, b: int): int {
    if a > b then a else b
  }

  /** How many more handled outcomes a task and the parts it may be split into can still cause. */
  function Weight(t: Task, retryCount: nat, k: nat): nat
    requires k > 0
  {
    if t.status != Todo then 0
    else Max(1, k - retryCount) + if t.splitFrom.None? then 2 * k else 0
  }

  function Weights(s: State, k: nat): map<Id, nat>
    requires k > 0
  {
    map t | t in s.tasks :: Weight(s.tasks[t], RetryCount(s, t), k)
  }

  ghost function Sum(m: map<Id, nat>): nat
    decreases |m|
  {
    if m == map[] then 0
    else var k :| k in m; m[k] + Sum(m - {k})
  }

  lemma {:induction false} SumRemove(m: map<Id, nat>, k: Id)
    requires k in m
    ensures Sum(m) == m[k] + Sum(m - {k})
    decreases |m|
  {
    var j :| j in m && Sum(m) == m[j] + Sum(m - {j});
    if j != k {
      SumRemove(m - {j}, k);
      SumRemove(m - {k}, j);
      assert (m - {j}) - {k} == (m - {k}) - {j};
    }
  }

  lemma SumUpdate(m: map<Id, nat>, k: Id, v: nat)
    ensures Sum(m[k := v]) == v + Sum(m) - if k in m then m[k] else 0
  {
    SumRemove(m[k := v], k);
    assert m[k := v] - {k} == m - {k};
    if k in m {
      SumRemove(m, k);
    } else {
      assert m - {k} == m;
    }
  }

  ghost function Times(n: nat, bound: nat): nat {
    if n == 0 then 0 else bound + Times(n - 1, bound)
  }

  lemma {:induction false} TimesIsProduct(n: nat, bound: nat)
    ensures Times(n, bound) == bound * n
  {
    if n > 0 { TimesIsProduct(n - 1, bound); }
  }

  lemma {:induction false} SumBound(m: map<Id, nat>, support: set<Id>, bound: nat)
    requires forall k | k in m :: m[k] <= if k in support then bound else 0
    ensures Sum(m) <= Times(|support|, bound)
    decreases |m|
  {
    if m != map[] {
      var k :| k in m;
      SumRemove(m, k);
      var m', rest := m - {k}, support - {k};
      assert forall j | j in m' :: m'[j] == m[j] && (j in support <==> j in rest);
      SumBound(m', rest, bound);
      assert |support| == |rest| + if k in support then 1 else 0;
    }
  }

  function Patience(lim: Limits): (k: nat)
    ensures k > 0
  {
    Max(1, lim.maxRetriesPerTask)
  }

  ghost function Measure(s: State, lim: Limits): nat {
    Sum(Weights(s, Patience(lim)))
  }

  predicate Handled(step: Step) {
    step.Complete? || step.Fail?
  }

  /** Only the weight of task `id` differs between `s` and `s'`. */
  lemma OneWeightChanges(s: State, s': State, id: Id, k: nat)
    requires k > 0 && id in s.tasks && s'.tasks.Keys == s.tasks.Keys
    requires forall t | t in s.tasks && t != id :: s'.tasks[t] == s.tasks[t] && RetryCount(s', t) == RetryCount(s, t)
    ensures Sum(Weights(s', k)) + Weight(s.tasks[id], RetryCount(s, id), k)
            == Sum(Weights(s, k)) + Weight(s'.tasks[id], RetryCount(s', id), k)
  {
    hide Weight, RetryCount;
    var w, w' := Weights(s, k), Weights(s', k);
    assert w' == w[id := w'[id]];
    SumUpdate(w, id, w'[id]);
  }

  lemma CompleteLowersMeasure(s: State, id: Id, lim: Limits)
    requires Keyed(s.tasks) && id in s.tasks && s.tasks[id].status == Todo
    ensures Measure(CompleteTask(s, s.tasks[id]), lim) < Measure(s, lim)
  {
    OneWeightChanges(s, CompleteTask(s, s.tasks[id]), id, Patience(lim));
  }

  lemma RecordLowersMeasure(s: State, id: Id, f: string, lim: Limits)
    requires Keyed(s.tasks) && id in s.tasks && s.tasks[id].status == Todo
    ensures var recorded := RecordFailure(s, s.tasks[id], f, lim.maxRetriesPerTask);
            && Measure(recorded, lim) <= Measure(s, lim)
            && (NextFailureAction(s.tasks[id], RetryCount(s, id), lim.maxRetriesPerTask) == Retry ==>
                  Measure(recorded, lim) < Measure(s, lim))
  {
    OneWeightChanges(s, RecordFailure(s, s.tasks[id], f, lim.maxRetriesPerTask), id, Patience(lim));
  }

  lemma BlockLowersMeasure(s: State, id: Id, lim: Limits)
    requires Keyed(s.tasks) && id in s.tasks && s.tasks[id].status == Todo
    ensures Measure(BlockTask(s, s.tasks[id]), lim) < Measure(s, lim)
  {
    OneWeightChanges(s, BlockTask(s, s.tasks[id]), id, Patience(lim));
  }

  /** Each part may fail as often as the patience allows; the parent's weight covers both and its own last failure. */
  lemma SplitLowersMeasure(s: State, id: Id, lim: Limits)
    requires Keyed(s.tasks) && id in s.tasks && FreshParts(s.tasks, id)
    requires s.tasks[id].status == Todo && s.tasks[id].splitFrom.None?
    ensures Measure(SplitTask(s, s.tasks[id]), lim) < Measure(s, lim)
  {
    hide FirstPart, SecondPart, SplitTasks;
    var k := Patience(lim);
    var s' := SplitTask(s, s.tasks[id]);
    var w, w' := Weights(s, k), Weights(s', k);
    var first, second := FirstPart(id), SecondPart(id);
    PartIdsDistinct(id, id);
    SplitKeepsOthers(s.tasks, id);
    forall t | t in s.tasks && t != id ensures w'[t] == w[t] {
      assert s'.tasks[t].status == s.tasks[t].status && s'.tasks[t].splitFrom == s.tasks[t].splitFrom;
    }
    SumOfSplit(w, w', id, first, second, k);
  }

  lemma SumOfSplit(w: map<Id, nat>, w': map<Id, nat>, id: Id, first: Id, second: Id, k: nat)
    requires id in w && first !in w && second !in w && first != second
    requires w'.Keys == w.Keys + {first, second} && forall t | t in w && t != id :: w'[t] == w[t]
    requires w'[id] == 0 && w'[first] <= k && w'[second] <= k && w[id] > 2 * k
    ensures Sum(w') < Sum(w)
  {
    var w1 := w[id := 0];
    var w2 := w1[first := w'[first]];
    assert w' == w2[second := w'[second]];
    SumUpdate(w, id, 0);
    SumUpdate(w1, first, w'[first]);
    SumUpdate(w2, second, w'[second]);
  }

  lemma FailLowersMeasure(s: State, id: Id, f: string, lim: Limits)
    requires Keyed(s.tasks) && id in s.tasks && s.tasks[id].status == Todo
    requires s.tasks[id].splitFrom.None? ==> FreshParts(s.tasks, id)
    ensures Measure(FailTask(s, s.tasks[id], f, lim.maxRetriesPerTask), lim) < Measure(s, lim)
  {
    hide FirstPart, SecondPart, SplitTask, BlockTask, Measure, FreshParts, RecordFailure;
    var t := s.tasks[id];
    var recorded := RecordFailure(s, t, f, lim.maxRetriesPerTask);
    RecordLowersMeasure(s, id, f, lim);
    RecordKeepsTasks(s, t, f, lim);
    MeasureIgnoresActive(recorded, lim);
    match NextFailureAction(t, RetryCount(s, t.id), lim.maxRetriesPerTask) {
      case Retry =>
      case Block => BlockLowersMeasure(recorded.(activeTaskId := None), id, lim);
      case Split => SplitLowersMeasure(recorded.(activeTaskId := None), id, lim);
    }
  }

  lemma MeasureIgnoresActive(s: State, lim: Limits)
    ensures Measure(s.(activeTaskId := None), lim) == Measure(s, lim)
  {
    assert Weights(s.(activeTaskId := None), Patience(lim)) == Weights(s, Patience(lim));
  }

  /** A handled outcome lowers the measure; without a resume nothing raises it. */
  lemma StepLowersMeasure(s: State, step: Step, lim: Limits)
    requires Inv(s, lim) && Next(s, step, lim).Some? && !step.Resume?
    ensures Measure(Next(s, step, lim).value, lim) + (if Handled(step) then 1 else 0) <= Measure(s, lim)
  {
    hide Clean, Acyclic, NoSupersededDependency, Agreed, Measure, CompleteTask, FailTask, RecordFailure;
    match step {
      case Complete(id) => CompleteLowersMeasure(s, id, lim);
      case Fail(id, f) => FailLowersMeasure(s, id, f, lim);
      case Interrupted(id, f) => RecordLowersMeasure(s, id, f, lim);
      case Replay(f) => ReplayKeepsMeasure(s, f, lim);
    }
  }

  lemma ReplayKeepsMeasure(s: State, f: string, lim: Limits)
    requires ReplayFailure(s, f).Some?
    ensures Measure(ReplayFailure(s, f).value, lim) == Measure(s, lim)
  {
    assert Weights(ReplayFailure(s, f).value, Patience(lim)) == Weights(s, Patience(lim));
  }

  function CountHandled(steps: seq<Step>): nat {
    if steps == [] then 0 else (if Handled(steps[0]) then 1 else 0) + CountHandled(steps[1..])
  }

  lemma {:induction false} RunIsBounded(s: State, steps: seq<Step>, lim: Limits)
    requires Inv(s, lim) && Exec(s, steps, lim).Some?
    requires forall step | step in steps :: !step.Resume?
    ensures CountHandled(steps) <= Measure(s, lim)
    decreases |steps|
  {
    hide Inv, Next, Measure;
    if steps != [] {
      NextKeepsInv(s, steps[0], lim);
      StepLowersMeasure(s, steps[0], lim);
      RunIsBounded(Next(s, steps[0], lim).value, steps[1..], lim);
    }
  }

  /** Without operator resumes, N tasks to do allow at most 3 * max(1, limit) * N handled outcomes. */
  lemma RunsTerminate(s: State, steps: seq<Step>, lim: Limits)
    requires Inv(s, lim) && Exec(s, steps, lim).Some?
    requires forall step | step in steps :: !step.Resume?
    ensures var todo := set t | t in s.tasks && s.tasks[t].status == Todo;
            CountHandled(steps) <= 3 * Max(1, lim.maxRetriesPerTask) * |todo|
  {
    hide Inv, Measure;
    RunIsBounded(s, steps, lim);
    MeasureBound(s, lim);
  }

  lemma MeasureBound(s: State, lim: Limits)
    ensures Measure(s, lim) <=
            3 * Max(1, lim.maxRetriesPerTask) * |set t | t in s.tasks && s.tasks[t].status == Todo|
  {
    var todo := set t | t in s.tasks && s.tasks[t].status == Todo;
    SumBound(Weights(s, Patience(lim)), todo, 3 * Patience(lim));
    TimesIsProduct(|todo|, 3 * Patience(lim));
  }

  // ----- Replaying a failure stops the project -----

  /** Every run stops before it selects a task, because the active task has used up its retries. */
  predicate Wedged(s: State, lim: Limits) {
    s.activeTaskId.Some? && RetryCount(s, s.activeTaskId.value) >= lim.maxRetriesPerTask
  }

  /** A replay wedges the project exactly when the retries of the failed task are spent. */
  lemma ReplayWedgesIff(s: State, failureId: string, lim: Limits)
    requires ReplayFailure(s, failureId).Some?
    ensures Wedged(ReplayFailure(s, failureId).value, lim)
       <==> RetryCount(s, s.failures[FindFailure(s.failures, failureId)].taskId) >= lim.maxRetriesPerTask
  {
  }

  /** In a run they always are: a failure is dead-lettered only when the task's retries are spent. */
  lemma ReplayWedges(s: State, failureId: string, lim: Limits)
    requires DeadLettersSpent(s.failures, s.retries, lim) && ReplayFailure(s, failureId).Some?
    ensures Wedged(ReplayFailure(s, failureId).value, lim)
  {
    assert s.failures[FindFailure(s.failures, failureId)] in s.failures;
  }

  lemma StepKeepsWedged(s: State, step: Step, lim: Limits)
    requires Inv(s, lim) && Wedged(s, lim) && Next(s, step, lim).Some?
    ensures Wedged(Next(s, step, lim).value, lim) && (step.Resume? || step.Replay?)
  {
    hide Clean, Sound, Agreed, IsExecutable, DeadLettersSpent;
    hide CompleteTask, FailTask, RecordFailure, ResumeFailure, ReplayFailure;
    match step {
      case Replay(f) => ReplayWedges(s, f, lim);
      case Resume(f) => ResumeKeepsActive(s, f);
      case _ =>
    }
  }

  lemma ResumeKeepsActive(s: State, f: string)
    requires ResumeFailure(s, f).Some?
    ensures var s' := ResumeFailure(s, f).value; s'.activeTaskId == s.activeTaskId && s'.retries == s.retries
  {
  }

  /** After a replay no task is ever run again, whatever operators resume or replay later. */
  lemma {:induction false} WedgedForGood(s: State, steps: seq<Step>, lim: Limits)
    requires Inv(s, lim) && Wedged(s, lim) && Exec(s, steps, lim).Some?
    ensures Wedged(Exec(s, steps, lim).value, lim)
    ensures forall step | step in steps :: step.Resume? || step.Replay?
    decreases |steps|
  {
    hide Inv, Wedged, Next;
    if steps != [] {
      NextKeepsInv(s, steps[0], lim);
      StepKeepsWedged(s, steps[0], lim);
      WedgedForGood(Next(s, steps[0], lim).value, steps[1..], lim);
    }
  }
}
