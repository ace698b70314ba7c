/** How run outcomes and operator commands change the project state. */
module Lifecycle {
  import opened Graph
  import opened Options
  import opened Backlog
  import opened TaskSplitting

  datatype FailureStatus = Retryable | DeadLettered | Resumed | Replayed

  datatype Failure = Failure(id: string, taskId: Id, status: FailureStatus)

  datatype Feature = Feature(epicId: Id, taskIds: seq<Id>)

  datatype Limits = Limits(maxStepsPerRun: nat, maxRetriesPerTask: nat)

  datatype FailureAction = Retry | Split | Block

  /** The part of the project state that task execution reads or writes; `artifacts` lists the task each is about. */
  datatype State = State(
    tasks: Tasks,
    features: map<Id, Feature>,
    epics: map<Id, seq<Id>>,
    completed: seq<Id>,
    blocked: seq<Id>,
    retries: map<Id, nat>,
    activeTaskId: Option<Id>,
    stepCount: nat,
    failures: seq<Failure>,
    artifacts: seq<Id>)

  function RetryCount(s: State, id: Id): nat {
    GetOr(s.retries, id, 0)
  }

  function NextFailureAction(t: Task, retryCount: nat, maxRetriesPerTask: nat): FailureAction {
    if retryCount + 1 < maxRetriesPerTask then Retry
    else if t.splitFrom.Some? then Block
    else Split
  }

  predicate ShouldStop(s: State, lim: Limits) {
    || s.stepCount >= lim.maxStepsPerRun
    || (s.activeTaskId.Some? && RetryCount(s, s.activeTaskId.value) >= lim.maxRetriesPerTask)
  }

  function AppendNew(s: seq<Id>, x: Id): seq<Id> {
    if x in s then s else s + [x]
  }

  function Without(s: seq<Id>, x: Id): (r: seq<Id>)
    ensures forall y :: y in r <==> y in s && y != x
  {
    if s == [] then []
    else
      assert s == s[..|s| - 1] + [s[|s| - 1]];
      Without(s[..|s| - 1], x) + if s[|s| - 1] == x then [] else [s[|s| - 1]]
  }

  /** A completion adds two artifacts about the task: its summary and that of the run. */
  function CompleteTask(s: State, t: Task): State {
    s.(tasks := s.tasks[t.id := t.(status := Done)],
       completed := AppendNew(s.completed, t.id),
       activeTaskId := None,
       stepCount := s.stepCount + 1,
       artifacts := s.artifacts + [t.id, t.id])
  }

  /** What a failed run records before it acts on the failure. */
  function RecordFailure(s: State, t: Task, failureId: string, maxRetries: nat): State {
    var retryCount := RetryCount(s, t.id);
    var status := if NextFailureAction(t, retryCount, maxRetries) == Block then DeadLettered else Retryable;
    s.(failures := s.failures + [Failure(failureId, t.id, status)], retries := s.retries[t.id := retryCount + 1])
  }

  function AddToFeature(features: map<Id, Feature>, t: Task): map<Id, Feature> {
    if t.featureId in features then
      var f := features[t.featureId];
      features[t.featureId := f.(taskIds := AppendNew(AppendNew(f.taskIds, FirstPart(t.id)), SecondPart(t.id)))]
    else features
  }

  function SplitTask(s: State, t: Task): State {
    s.(tasks := SplitTasks(s.tasks, t),
       features := AddToFeature(s.features, t),
       blocked := Without(s.blocked, t.id),
       artifacts := s.artifacts + [t.id])
  }

  function BlockTask(s: State, t: Task): State {
    s.(tasks := s.tasks[t.id := t.(status := Blocked)],
       blocked := AppendNew(s.blocked, t.id),
       artifacts := s.artifacts + [t.id])
  }

  function FailTask(s: State, t: Task, failureId: string, maxRetries: nat): State {
    var recorded := RecordFailure(s, t, failureId, maxRetries).(activeTaskId := None);
    match NextFailureAction(t, RetryCount(s, t.id), maxRetries)
    case Retry => recorded
    case Split => SplitTask(recorded, t)
    case Block => BlockTask(recorded, t)
  }

  /** The first failure with the given id, or the length of the list. */
  function FindFailure(failures: seq<Failure>, id: string): (i: nat)
    ensures i <= |failures| && (i < |failures| ==> failures[i].id == id)
  {
    if failures == [] then 0
    else if failures[0].id == id then 0
    else 1 + FindFailure(failures[1..], id)
  }

  /** `None` stands for the error raised when there is no dead-lettered failure of that id. */
  function ResumeFailure(s: State, failureId: string): Option<State> {
    var i := FindFailure(s.failures, failureId);
    if i == |s.failures| || s.failures[i].status != DeadLettered then None
    else
      var f := s.failures[i];
      var marked := s.(failures := s.failures[i := f.(status := Resumed)]);
      if f.taskId in s.tasks && s.tasks[f.taskId].status == Blocked then
        var t := s.tasks[f.taskId];
        Some(marked.(tasks := s.tasks[f.taskId := t.(status := Todo)], blocked := Without(s.blocked, t.id)))
      else Some(marked)
  }

  function ReplayFailure(s: State, failureId: string): Option<State> {
    var i := FindFailure(s.failures, failureId);
    if i == |s.failures| || s.failures[i].status != DeadLettered then None
    else
      var f := s.failures[i];
      Some(s.(failures := s.failures[i := f.(status := Replayed)], activeTaskId := Some(f.taskId)))
  }

  /** The referential checks that every stored state has passed. */
  predicate Clean(s: State) {
    && (s.activeTaskId.Some? ==> s.activeTaskId.value in s.tasks)
    && CleanRecords(s.tasks, s.features, s.epics)
    && CleanLists(s.tasks, s.blocked, s.completed, s.failures, s.artifacts)
  }

  predicate CleanRecords(tasks: Tasks, features: map<Id, Feature>, epics: map<Id, seq<Id>>) {
    && (forall f | f in features :: CleanFeature(tasks, features[f], f, epics))
    && (forall e | e in epics :: CleanEpic(features, epics[e]))
    && (forall t | t in tasks :: CleanTask(tasks, tasks[t]))
  }

  predicate CleanFeature(tasks: Tasks, feature: Feature, id: Id, epics: map<Id, seq<Id>>) {
    feature.epicId in epics && forall t | t in feature.taskIds :: t in tasks && tasks[t].featureId == id
  }

  predicate CleanEpic(features: map<Id, Feature>, featureIds: seq<Id>) {
    forall f | f in featureIds :: f in features
  }

  predicate CleanTask(tasks: Tasks, t: Task) {
    && ValidTask(t)
    && (t.splitFrom.Some? ==> t.splitFrom.value in tasks)
    && forall d | d in t.dependsOn :: d in tasks
  }

  predicate CleanLists(tasks: Tasks, blocked: seq<Id>, completed: seq<Id>, failures: seq<Failure>, artifacts: seq<Id>) {
    && (forall b | b in blocked :: CleanBlocked(tasks, failures, artifacts, b))
    && (forall c | c in completed :: c in tasks && tasks[c].status == Done)
  }

  predicate CleanBlocked(tasks: Tasks, failures: seq<Failure>, artifacts: seq<Id>, b: Id) {
    && b in tasks && tasks[b].status == Blocked
    && ((exists f | f in failures :: f.taskId == b) || b in artifacts)
  }

  /** The run's working copy of the project state, updated in place. */
  class RunState {
    var tasks: Tasks
    var features: map<Id, Feature>
    var epics: map<Id, seq<Id>>
    var completed: seq<Id>
    var blocked: seq<Id>
    var retries: map<Id, nat>
    var activeTaskId: Option<Id>
    var stepCount: nat
    var failures: seq<Failure>
    var artifacts: seq<Id>

    function View(): State
      reads this
    {
      State(tasks, features, epics, completed, blocked, retries, activeTaskId, stepCount, failures, artifacts)
    }

    constructor (s: State)
      ensures View() == s
    {
      tasks, features, epics := s.tasks, s.features, s.epics;
      completed, blocked, retries := s.completed, s.blocked, s.retries;
      activeTaskId, stepCount, failures, artifacts := s.activeTaskId, s.stepCount, s.failures, s.artifacts;
    }

    method Complete(task: Task)
      requires task.id in tasks
      modifies this
      ensures View() == CompleteTask(old(View()), task)
    {
      tasks := tasks[task.id := task.(status := Done)];
      if task.id !in completed {
        completed := completed + [task.id];
      }
      activeTaskId := None;
      stepCount := stepCount + 1;
      artifacts := artifacts + [task.id, task.id];
    }

    method HandleFailure(task: Task, failureId: string, maxRetries: nat)
      requires task.id in tasks
      modifies this
      ensures View() == FailTask(old(View()), task, failureId, maxRetries)
    {
      hide SplitTask, BlockTask;
      var retryCount := GetOr(retries, task.id, 0);
      var action := NextFailureAction(task, retryCount, maxRetries);
      failures := failures + [Failure(failureId, task.id, if action == Block then DeadLettered else Retryable)];
      retries := retries[task.id := retryCount + 1];
      activeTaskId := None;
      match action {
        case Split => SplitForFailure(task);
        case Block => BlockForFailure(task);
        case Retry =>
      }
    }

    method SplitForFailure(task: Task)
      requires task.id in tasks
      modifies this
      ensures View() == SplitTask(old(View()), task)
    {
      hide SplitTaskForRetry, FirstPart, SecondPart, RewriteTask;
      PlannedDependencies(task);
      var plan := SplitTaskForRetry(task);
      tasks := tasks[task.id := task.(status := Superseded)];
      blocked := Without(blocked, task.id);
      tasks := tasks[plan.first.id := plan.first];
      PushToFeature(task.featureId, plan.first.id);
      tasks := tasks[plan.second.id := plan.second];
      PushToFeature(task.featureId, plan.second.id);
      RewriteSupersededDependencies(task.id, plan);
      artifacts := artifacts + [task.id];
    }

    method PushToFeature(featureId: Id, taskId: Id)
      modifies this`features
      ensures features == if featureId !in old(features) then old(features) else
                            var f := old(features)[featureId];
                            old(features)[featureId := f.(taskIds := AppendNew(f.taskIds, taskId))]
    {
      if featureId in features && taskId !in features[featureId].taskIds {
        features := features[featureId := features[featureId].(taskIds := features[featureId].taskIds + [taskId])];
      }
    }

    method RewriteSupersededDependencies(parent: Id, plan: SplitPlan)
      requires plan.first.id == FirstPart(parent) && plan.second.id == SecondPart(parent)
      modifies this`tasks
      ensures tasks == RewriteSuperseded(old(tasks), parent)
    {
      var candidates := tasks.Keys;
      while candidates != {}
        invariant candidates <= tasks.Keys == old(tasks).Keys
        invariant forall k | k in tasks ::
                    tasks[k] == if k in candidates then old(tasks)[k] else RewriteTask(old(tasks)[k], parent)
        decreases candidates
      {
        var k :| k in candidates;
        candidates := candidates - {k};
        var candidate := tasks[k];
        if candidate.id == parent || candidate.id == plan.first.id || candidate.id == plan.second.id {
          continue;
        }
        if parent !in candidate.dependsOn {
          continue;
        }
        var next := Replace(candidate.dependsOn, parent, plan.second.id);
        tasks := tasks[k := candidate.(dependsOn := Unique(next))];
      }
    }

    method BlockForFailure(task: Task)
      requires task.id in tasks
      modifies this
      ensures View() == BlockTask(old(View()), task)
    {
      tasks := tasks[task.id := task.(status := Blocked)];
      if task.id !in blocked {
        blocked := blocked + [task.id];
      }
      artifacts := artifacts + [task.id];
    }

    method Resume(failureId: string) returns (ok: bool)
      modifies this
      ensures ok == ResumeFailure(old(View()), failureId).Some?
      ensures View() == if ok then ResumeFailure(old(View()), failureId).value else old(View())
    {
      var i := FindFailure(failures, failureId);
      if i == |failures| || failures[i].status != DeadLettered {
        return false;
      }
      var f := failures[i];
      failures := failures[i := f.(status := Resumed)];
      if f.taskId in tasks && tasks[f.taskId].status == Blocked {
        var t := tasks[f.taskId];
        tasks := tasks[f.taskId := t.(status := Todo)];
        blocked := Without(blocked, t.id);
      }
      return true;
    }

    method Replay(failureId: string) returns (ok: bool)
      modifies this
      ensures ok == ReplayFailure(old(View()), failureId).Some?
      ensures View() == if ok then ReplayFailure(old(View()), failureId).value else old(View())
    {
      var i := FindFailure(failures, failureId);
      if i == |failures| || failures[i].status != DeadLettered {
        return false;
      }
      activeTaskId := Some(failures[i].taskId);
      failures := failures[i := failures[i].(status := Replayed)];
      return true;
    }
  }

  datatype Issue =
    | MissingActiveTask(id: Id)
    | MissingEpic(feature: Id)
    | MissingFeatureTask(feature: Id, task: Id)
    | FeatureMismatch(feature: Id, task: Id)
    | MissingFeature(epic: Id, feature: Id)
    | NoCriteria(task: Id)
    | SplitFromItself(task: Id)
    | MissingOrigin(task: Id)
    | MissingDependency(task: Id, dependency: Id)
    | MissingBlocked(task: Id)
    | NotBlocked(task: Id)
    | NoRecord(task: Id)
    | MissingCompleted(task: Id)
    | NotDone(task: Id)

  /** What each issue says of the state. */
  predicate IsIssue(s: State, i: Issue) {
    match i
    case MissingActiveTask(id) => s.activeTaskId == Some(id) && id !in s.tasks
    case MissingEpic(f) => f in s.features && s.features[f].epicId !in s.epics
    case MissingFeatureTask(f, t) => f in s.features && t in s.features[f].taskIds && t !in s.tasks
    case FeatureMismatch(f, t) =>
      f in s.features && t in s.features[f].taskIds && t in s.tasks && s.tasks[t].featureId != f
    case MissingFeature(e, f) => e in s.epics && f in s.epics[e] && f !in s.features
    case NoCriteria(t) => t in s.tasks && s.tasks[t].acceptanceCriteria == []
    case SplitFromItself(t) => t in s.tasks && s.tasks[t].splitFrom == Some(s.tasks[t].id)
    case MissingOrigin(t) => t in s.tasks && s.tasks[t].splitFrom.Some? && s.tasks[t].splitFrom.value !in s.tasks
    case MissingDependency(t, d) => t in s.tasks && d in s.tasks[t].dependsOn && d !in s.tasks
    case MissingBlocked(t) => t in s.blocked && t !in s.tasks
    case NotBlocked(t) => t in s.blocked && t in s.tasks && s.tasks[t].status != Status.Blocked
    case NoRecord(t) =>
      t in s.blocked && t in s.tasks && (forall f | f in s.failures :: f.taskId != t) && t !in s.artifacts
    case MissingCompleted(t) => t in s.completed && t !in s.tasks
    case NotDone(t) => t in s.completed && t in s.tasks && s.tasks[t].status != Done
  }

  predicate AboutFeatures(i: Issue) {
    i.MissingEpic? || i.MissingFeatureTask? || i.FeatureMismatch?
  }

  predicate AboutTasks(i: Issue) {
    i.NoCriteria? || i.SplitFromItself? || i.MissingOrigin? || i.MissingDependency?
  }

  predicate AboutBlocked(i: Issue) {
    i.MissingBlocked? || i.NotBlocked? || i.NoRecord?
  }

  predicate AboutCompleted(i: Issue) {
    i.MissingCompleted? || i.NotDone?
  }

  /** A state has an issue exactly when it is not clean. */
  lemma CleanMeansNoIssue(s: State)
    ensures Clean(s) <==> forall i :: !IsIssue(s, i)
  {
    if forall i :: !IsIssue(s, i) {
      IssueFreeRecords(s);
      IssueFreeLists(s);
      assert s.activeTaskId.Some? ==> !IsIssue(s, MissingActiveTask(s.activeTaskId.value));
    } else if Clean(s) {
      var i :| IsIssue(s, i);
      IssuesAreUnclean(s, i);
    }
  }

  lemma IssuesAreUnclean(s: State, i: Issue)
    requires IsIssue(s, i)
    ensures !Clean(s)
  {
    match i {
      case MissingEpic(f) => assert !CleanFeature(s.tasks, s.features[f], f, s.epics);
      case MissingFeatureTask(f, _) => assert !CleanFeature(s.tasks, s.features[f], f, s.epics);
      case FeatureMismatch(f, _) => assert !CleanFeature(s.tasks, s.features[f], f, s.epics);
      case MissingFeature(e, _) => assert !CleanEpic(s.features, s.epics[e]);
      case NoCriteria(t) => assert !CleanTask(s.tasks, s.tasks[t]);
      case SplitFromItself(t) => assert !CleanTask(s.tasks, s.tasks[t]);
      case MissingOrigin(t) => assert !CleanTask(s.tasks, s.tasks[t]);
      case MissingDependency(t, _) => assert !CleanTask(s.tasks, s.tasks[t]);
      case MissingBlocked(t) => assert !CleanBlocked(s.tasks, s.failures, s.artifacts, t);
      case NotBlocked(t) => assert !CleanBlocked(s.tasks, s.failures, s.artifacts, t);
      case NoRecord(t) => assert !CleanBlocked(s.tasks, s.failures, s.artifacts, t);
      case _ =>
    }
  }

  lemma IssueFreeRecords(s: State)
    requires forall i :: !IsIssue(s, i)
    ensures CleanRecords(s.tasks, s.features, s.epics)
  {
    forall f | f in s.features ensures CleanFeature(s.tasks, s.features[f], f, s.epics) {
      assert !IsIssue(s, MissingEpic(f));
      forall t | t in s.features[f].taskIds ensures t in s.tasks && s.tasks[t].featureId == f {
        assert !IsIssue(s, MissingFeatureTask(f, t)) && !IsIssue(s, FeatureMismatch(f, t));
      }
    }
    forall e | e in s.epics ensures CleanEpic(s.features, s.epics[e]) {
      forall f | f in s.epics[e] ensures f in s.features {
        assert !IsIssue(s, MissingFeature(e, f));
      }
    }
    forall t | t in s.tasks ensures CleanTask(s.tasks, s.tasks[t]) {
      assert !IsIssue(s, NoCriteria(t)) && !IsIssue(s, SplitFromItself(t)) && !IsIssue(s, MissingOrigin(t));
      forall d | d in s.tasks[t].dependsOn ensures d in s.tasks {
        assert !IsIssue(s, MissingDependency(t, d));
      }
    }
  }

  lemma IssueFreeLists(s: State)
    requires forall i :: !IsIssue(s, i)
    ensures CleanLists(s.tasks, s.blocked, s.completed, s.failures, s.artifacts)
  {
    forall b | b in s.blocked ensures CleanBlocked(s.tasks, s.failures, s.artifacts, b) {
      assert !IsIssue(s, MissingBlocked(b)) && !IsIssue(s, NotBlocked(b)) && !IsIssue(s, NoRecord(b));
    }
    forall c | c in s.completed ensures c in s.tasks && s.tasks[c].status == Done {
      assert !IsIssue(s, MissingCompleted(c)) && !IsIssue(s, NotDone(c));
    }
  }

  /** The validator lists exactly the issues the state has, so it stays silent exactly on the clean states. */
  method ValidateProjectState(s: State) returns (issues: seq<Issue>)
    ensures forall i :: i in issues <==> IsIssue(s, i)
    ensures issues == [] <==> Clean(s)
  {
    hide Clean;
    CleanMeansNoIssue(s);
    issues := if s.activeTaskId.Some? && s.activeTaskId.value !in s.tasks
              then [MissingActiveTask(s.activeTaskId.value)] else [];
    var features := FeatureIssues(s);
    var epics := EpicIssues(s);
    var tasks := TaskIssues(s);
    var blocked := BlockedIssues(s);
    var completed := CompletedIssues(s);
    forall i ensures i in issues + features + epics + tasks + blocked + completed <==> IsIssue(s, i) {
    }
    issues := issues + features + epics + tasks + blocked + completed;
    assert issues != [] ==> issues[0] in issues;
  }

  method FeatureIssues(s: State) returns (issues: seq<Issue>)
    ensures forall i :: i in issues <==> AboutFeatures(i) && IsIssue(s, i)
  {
    issues := [];
    var features := s.features.Keys;
    while features != {}
      invariant features <= s.features.Keys
      invariant forall i :: i in issues <==> AboutFeatures(i) && IsIssue(s, i) && i.feature !in features
      decreases features
    {
      var f :| f in features;
      features := features - {f};
      var more := IssuesOfFeature(s, f);
      issues := issues + more;
    }
  }

  method IssuesOfFeature(s: State, f: Id) returns (issues: seq<Issue>)
    requires f in s.features
    ensures forall i :: i in issues <==> AboutFeatures(i) && IsIssue(s, i) && i.feature == f
  {
    issues := if s.features[f].epicId !in s.epics then [MissingEpic(f)] else [];
    var taskIds := s.features[f].taskIds;
    for k := 0 to |taskIds|
      invariant forall i :: i in issues <==> AboutFeatures(i) && IsIssue(s, i) && i.feature == f
                                             && (!i.MissingEpic? ==> i.task in taskIds[..k])
    {
      assert taskIds[..k + 1] == taskIds[..k] + [taskIds[k]];
      var t := taskIds[k];
      if t !in s.tasks {
        issues := issues + [MissingFeatureTask(f, t)];
      } else if s.tasks[t].featureId != f {
        issues := issues + [FeatureMismatch(f, t)];
      }
    }
    assert taskIds[..|taskIds|] == taskIds;
  }

  method EpicIssues(s: State) returns (issues: seq<Issue>)
    ensures forall i :: i in issues <==> i.MissingFeature? && IsIssue(s, i)
  {
    issues := [];
    var epics := s.epics.Keys;
    while epics != {}
      invariant epics <= s.epics.Keys
      invariant forall i :: i in issues <==> i.MissingFeature? && IsIssue(s, i) && i.epic !in epics
      decreases epics
    {
      var e :| e in epics;
      epics := epics - {e};
      var featureIds := s.epics[e];
      for k := 0 to |featureIds|
        invariant forall i :: i in issues <==> i.MissingFeature? && IsIssue(s, i) && i.epic !in epics
                                               && (i.epic == e ==> i.feature in featureIds[..k])
      {
        assert featureIds[..k + 1] == featureIds[..k] + [featureIds[k]];
        if featureIds[k] !in s.features {
          issues := issues + [MissingFeature(e, featureIds[k])];
        }
      }
      assert featureIds[..|featureIds|] == featureIds;
    }
  }

  method TaskIssues(s: State) returns (issues: seq<Issue>)
    ensures forall i :: i in issues <==> AboutTasks(i) && IsIssue(s, i)
  {
    issues := [];
    var tasks := s.tasks.Keys;
    while tasks != {}
      invariant tasks <= s.tasks.Keys
      invariant forall i :: i in issues <==> AboutTasks(i) && IsIssue(s, i) && i.task !in tasks
      decreases tasks
    {
      var t :| t in tasks;
      tasks := tasks - {t};
      var own := ValidateBacklogTask(t, s.tasks[t]);
      var more := ReferencesOfTask(s, t);
      issues := issues + own + more;
    }
  }

  /** The checks of one task on its own; that it declares a kind is left to the type. */
  method ValidateBacklogTask(k: Id, t: Task) returns (issues: seq<Issue>)
    ensures forall i :: i in issues <==>
              || (i == NoCriteria(k) && t.acceptanceCriteria == [])
              || (i == SplitFromItself(k) && t.splitFrom == Some(t.id))
    ensures issues == [] <==> ValidTask(t)
  {
    issues := [];
    if |t.acceptanceCriteria| == 0 {
      issues := issues + [NoCriteria(k)];
    }
    if t.splitFrom.Some? && t.splitFrom.value == t.id {
      issues := issues + [SplitFromItself(k)];
    }
  }

  method ReferencesOfTask(s: State, t: Id) returns (issues: seq<Issue>)
    requires t in s.tasks
    ensures forall i :: i in issues <==> (i.MissingOrigin? || i.MissingDependency?) && IsIssue(s, i) && i.task == t
  {
    var task := s.tasks[t];
    issues := if task.splitFrom.Some? && task.splitFrom.value !in s.tasks then [MissingOrigin(t)] else [];
    for k := 0 to |task.dependsOn|
      invariant forall i :: i in issues <==> (i.MissingOrigin? || i.MissingDependency?) && IsIssue(s, i) && i.task == t
                                             && (i.MissingDependency? ==> i.dependency in task.dependsOn[..k])
    {
      assert task.dependsOn[..k + 1] == task.dependsOn[..k] + [task.dependsOn[k]];
      if task.dependsOn[k] !in s.tasks {
        issues := issues + [MissingDependency(t, task.dependsOn[k])];
      }
    }
    assert task.dependsOn[..|task.dependsOn|] == task.dependsOn;
  }

  method BlockedIssues(s: State) returns (issues: seq<Issue>)
    ensures forall i :: i in issues <==> AboutBlocked(i) && IsIssue(s, i)
  {
    issues := [];
    for k := 0 to |s.blocked|
      invariant forall i :: i in issues <==> AboutBlocked(i) && IsIssue(s, i) && i.task in s.blocked[..k]
    {
      assert s.blocked[..k + 1] == s.blocked[..k] + [s.blocked[k]];
      var more := IssuesOfBlocked(s, s.blocked[k]);
      issues := issues + more;
    }
    assert s.blocked[..|s.blocked|] == s.blocked;
  }

  method IssuesOfBlocked(s: State, b: Id) returns (issues: seq<Issue>)
    requires b in s.blocked
    ensures forall i :: i in issues <==> AboutBlocked(i) && IsIssue(s, i) && i.task == b
  {
    if b !in s.tasks {
      return [MissingBlocked(b)];
    }
    issues := if s.tasks[b].status != Status.Blocked then [NotBlocked(b)] else [];
    var hasFailure := false;
    for k := 0 to |s.failures|
      invariant hasFailure <==> exists j :: 0 <= j < k && s.failures[j].taskId == b
    {
      hasFailure := hasFailure || s.failures[k].taskId == b;
    }
    var hasArtifact := b in s.artifacts;
    if !hasFailure && !hasArtifact {
      issues := issues + [NoRecord(b)];
    }
  }

  method CompletedIssues(s: State) returns (issues: seq<Issue>)
    ensures forall i :: i in issues <==> AboutCompleted(i) && IsIssue(s, i)
  {
    issues := [];
    for k := 0 to |s.completed|
      invariant forall i :: i in issues <==> AboutCompleted(i) && IsIssue(s, i) && i.task in s.completed[..k]
    {
      assert s.completed[..k + 1] == s.completed[..k] + [s.completed[k]];
      var c := s.completed[k];
      if c !in s.tasks {
        issues := issues + [MissingCompleted(c)];
        continue;
      }
      if s.tasks[c].status != Done {
        issues := issues + [NotDone(c)];
      }
    }
    assert s.completed[..|s.completed|] == s.completed;
  }
}
