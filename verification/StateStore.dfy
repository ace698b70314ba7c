/** The project state under revisions, and the store that keeps it in memory. */
module StateStore {
  import opened Options

  type Id = string

  datatype Artifact = Artifact(id: Id, title: string)
  datatype Failure = Failure(taskId: Id, reason: string)
  datatype Decision = Decision(id: Id, title: string)
  datatype PolicyDecision = PolicyDecision(
    id: Id, runId: Id, stepId: Id, attempt: nat, actionType: string, policyVersion: string, inputHash: string,
    allows: bool)
  datatype RunStep = RunStep(id: Id, runId: Id)

  datatype Project = Project(
    revision: nat,
    tasks: map<Id, string>,
    completed: seq<Id>,
    activeTask: Option<Id>,
    artifacts: seq<Artifact>,
    failures: seq<Failure>,
    decisions: seq<Decision>,
    policyDecisions: seq<PolicyDecision>,
    retryCounts: map<Id, nat>,
    runSteps: seq<RunStep>)

  /** What a `record*` call adds. Only the memory store gives `MarkDone` a summary artifact. */
  datatype Change =
    | AddFailure(failure: Failure)
    | AddArtifact(artifact: Artifact)
    | AddDecision(decision: Decision)
    | AddPolicyDecision(policyDecision: PolicyDecision)
    | MarkDone(taskId: Id, summary: Option<Artifact>)

  datatype Outcome =
    | Committed(revision: nat)
    | Conflict(expected: int, current: nat)
    | InvalidExpectation(expected: int)
    | MissingTask(taskId: Id)
    | DuplicateEntry(id: Id)

  function RetryCount(p: Project, t: Id): nat {
    GetOr(p.retryCounts, t, 0)
  }

  predicate HasArtifact(p: Project, id: Id) {
    exists i :: 0 <= i < |p.artifacts| && p.artifacts[i].id == id
  }

  /** `None` when the call is about a task that does not exist. */
  function ApplyChange(p: Project, c: Change): Option<Project> {
    match c
    case AddFailure(f) =>
      if f.taskId !in p.tasks then None
      else Some(p.(failures := p.failures + [f], retryCounts := p.retryCounts[f.taskId := RetryCount(p, f.taskId) + 1]))
    case AddArtifact(a) => Some(if HasArtifact(p, a.id) then p else p.(artifacts := p.artifacts + [a]))
    case AddDecision(d) => Some(p.(decisions := p.decisions + [d]))
    case AddPolicyDecision(d) => Some(p.(policyDecisions := p.policyDecisions + [d]))
    case MarkDone(t, summary) =>
      if t !in p.tasks then None
      else Some(p.(
        tasks := p.tasks[t := "done"],
        completed := if t in p.completed then p.completed else p.completed + [t],
        activeTask := None,
        artifacts := p.artifacts + if summary.Some? then [summary.value] else []))
  }

  /** The entries a change may append to the list of artifacts. */
  predicate AppendsArtifacts(p: Project, c: Change, more: seq<Artifact>) {
    match c
    case AddArtifact(a) => if HasArtifact(p, a.id) then more == [] else more == [a]
    case MarkDone(_, Some(summary)) => more == [summary]
    case _ => more == []
  }

  predicate NoRepeats(s: seq<Id>) {
    forall i, j | 0 <= i < j < |s| :: s[i] != s[j]
  }

  /**
   * Each change is refused only for a missing task, and otherwise adds its own entry at the end of its own list,
   * and nothing anywhere else.
   */
  lemma ChangeAddsItsEntry(p: Project, c: Change)
    ensures ApplyChange(p, c).None? <==>
      (c.AddFailure? && c.failure.taskId !in p.tasks) || (c.MarkDone? && c.taskId !in p.tasks)
    ensures var r := ApplyChange(p, c);
            r.Some? ==>
              && var q := r.value;
              && q.failures == p.failures + (if c.AddFailure? then [c.failure] else [])
              && q.decisions == p.decisions + (if c.AddDecision? then [c.decision] else [])
              && q.policyDecisions == p.policyDecisions + (if c.AddPolicyDecision? then [c.policyDecision] else [])
              && (exists more :: AppendsArtifacts(p, c, more) && q.artifacts == p.artifacts + more)
              && (forall t ::
                    RetryCount(q, t) == RetryCount(p, t) + if c.AddFailure? && c.failure.taskId == t then 1 else 0)
              && q.revision == p.revision && q.runSteps == p.runSteps
              && (!c.MarkDone? ==> q.tasks == p.tasks && q.completed == p.completed && q.activeTask == p.activeTask)
  {
    var r := ApplyChange(p, c);
    if r.Some? {
      var more := if |r.value.artifacts| > |p.artifacts| then [r.value.artifacts[|p.artifacts|]] else [];
      assert AppendsArtifacts(p, c, more) && r.value.artifacts == p.artifacts + more;
    }
  }

  /** Marking a task done finishes that task and no other, and lists it once. */
  lemma MarkDoneFinishes(p: Project, t: Id, summary: Option<Artifact>)
    requires t in p.tasks
    ensures var q := ApplyChange(p, MarkDone(t, summary)).value;
            && q.tasks.Keys == p.tasks.Keys
            && (forall k | k in p.tasks :: q.tasks[k] == if k == t then "done" else p.tasks[k])
            && q.activeTask == None
            && p.completed <= q.completed && (forall k :: k in q.completed <==> k in p.completed || k == t)
            && (NoRepeats(p.completed) ==> NoRepeats(q.completed))
  {
  }

  /** The entry of a change is there. */
  predicate Holds(p: Project, c: Change) {
    match c
    case AddFailure(f) => f in p.failures
    case AddArtifact(a) => HasArtifact(p, a.id)
    case AddDecision(d) => d in p.decisions
    case AddPolicyDecision(d) => d in p.policyDecisions
    case MarkDone(t, summary) =>
      && t in p.tasks && p.tasks[t] == "done" && t in p.completed
      && (summary.Some? ==> summary.value in p.artifacts)
  }

  /** A change puts its entry in, and takes none out. */
  lemma ChangeKeepsEntries(p: Project, c: Change, d: Change)
    requires ApplyChange(p, c).Some? && (d == c || Holds(p, d))
    ensures Holds(ApplyChange(p, c).value, d)
  {
    var q := ApplyChange(p, c).value;
    if d.AddArtifact? && HasArtifact(p, d.artifact.id) {
      var i :| 0 <= i < |p.artifacts| && p.artifacts[i].id == d.artifact.id;
      assert q.artifacts[i] == p.artifacts[i];
    } else if d.AddArtifact? {
      assert q.artifacts[|p.artifacts|] == d.artifact;
    }
  }

  /** The revision a write counts on: the one its caller names, or the one of the snapshot it writes. */
  function ExpectedRevision(next: Project, expected: Option<int>): int {
    if expected.Some? then expected.value else next.revision
  }

  function WithRevision(p: Project, revision: nat): (r: Project)
    ensures r.revision == revision
  {
    p.(revision := revision)
  }

  /** The compare-and-swap on the revision. */
  function Swap(current: Project, next: Project, expected: Option<int>): (Project, Outcome) {
    var e := ExpectedRevision(next, expected);
    if e < 0 then (current, InvalidExpectation(e))
    else if e != current.revision then (current, Conflict(e, current.revision))
    else (WithRevision(next, current.revision + 1), Committed(current.revision + 1))
  }

  /** A write goes through exactly when the state is still the one it counts on; otherwise it changes nothing. */
  lemma SwapComparesRevisions(current: Project, next: Project, expected: Option<int>)
    ensures var (after, outcome) := Swap(current, next, expected);
            && (outcome.Committed? <==> current.revision == if expected.Some? then expected.value else next.revision)
            && (outcome.Committed? ==>
                  after == next.(revision := current.revision + 1) && outcome.revision == current.revision + 1)
            && (!outcome.Committed? ==> after == current)
            && (outcome.InvalidExpectation? <==> expected.Some? && expected.value < 0)
            && (outcome.Conflict? ==> outcome.current == current.revision)
  {
  }

  function MissingId(c: Change): Id {
    match c
    case AddFailure(f) => f.taskId
    case MarkDone(t, _) => t
    case _ => ""
  }

  function Record(current: Project, c: Change, expected: Option<int>): (Project, Outcome) {
    var next := ApplyChange(current, c);
    if next.None? then (current, MissingTask(MissingId(c))) else Swap(current, next.value, expected)
  }

  /** A call about a missing task is refused by its id and changes nothing. */
  lemma MissingTaskIsRefused(current: Project, c: Change, expected: Option<int>)
    ensures var (after, outcome) := Record(current, c, expected);
            && (c.AddFailure? && c.failure.taskId !in current.tasks ==>
                  after == current && outcome == MissingTask(c.failure.taskId))
            && (c.MarkDone? && c.taskId !in current.tasks ==> after == current && outcome == MissingTask(c.taskId))
  {
  }

  class InMemoryStateStore {
    var state: Project

    constructor (initial: Project)
      ensures state == initial
    {
      state := initial;
    }

    method CommitSnapshot(next: Project, expected: Option<int>) returns (outcome: Outcome)
      modifies this
      ensures (state, outcome) == Swap(old(state), next, expected)
    {
      var e := ExpectedRevision(next, expected);
      if e < 0 {
        return InvalidExpectation(e);
      }
      if e != state.revision {
        return Conflict(e, state.revision);
      }
      state := WithRevision(next, state.revision + 1);
      outcome := Committed(state.revision);
    }

    method RecordFailure(failure: Failure, expected: Option<int>) returns (outcome: Outcome, retryCount: nat)
      modifies this
      ensures (state, outcome) == Record(old(state), AddFailure(failure), expected)
      ensures outcome.Committed? ==>
                retryCount == RetryCount(state, failure.taskId) == old(RetryCount(state, failure.taskId)) + 1
    {
      retryCount := 0;
      if failure.taskId !in state.tasks {
        return MissingTask(failure.taskId), 0;
      }
      var current := state;
      current := current.(failures := current.failures + [failure]);
      retryCount := RetryCount(current, failure.taskId) + 1;
      current := current.(retryCounts := current.retryCounts[failure.taskId := retryCount]);
      outcome := CommitSnapshot(current, expected);
    }

    method RecordArtifact(artifact: Artifact, expected: Option<int>) returns (outcome: Outcome)
      modifies this
      ensures (state, outcome) == Record(old(state), AddArtifact(artifact), expected)
    {
      var current := state;
      if !HasArtifact(current, artifact.id) {
        current := current.(artifacts := current.artifacts + [artifact]);
      }
      outcome := CommitSnapshot(current, expected);
    }

    method RecordDecision(decision: Decision, expected: Option<int>) returns (outcome: Outcome)
      modifies this
      ensures (state, outcome) == Record(old(state), AddDecision(decision), expected)
    {
      outcome := CommitSnapshot(state.(decisions := state.decisions + [decision]), expected);
    }

    method RecordPolicyDecision(decision: PolicyDecision, expected: Option<int>) returns (outcome: Outcome)
      modifies this
      ensures (state, outcome) == Record(old(state), AddPolicyDecision(decision), expected)
    {
      outcome := CommitSnapshot(state.(policyDecisions := state.policyDecisions + [decision]), expected);
    }

    method MarkTaskDone(taskId: Id, summary: Artifact, expected: Option<int>) returns (outcome: Outcome)
      modifies this
      ensures (state, outcome) == Record(old(state), MarkDone(taskId, Some(summary)), expected)
    {
      if taskId !in state.tasks {
        return MissingTask(taskId);
      }
      var current := state.(tasks := state.tasks[taskId := "done"]);
      if taskId !in current.completed {
        current := current.(completed := current.completed + [taskId]);
      }
      current := current.(activeTask := None, artifacts := current.artifacts + [summary]);
      outcome := CommitSnapshot(current, expected);
    }

    /** A run step does not move the revision. */
    method RecordRunStep(step: RunStep) returns (revision: nat)
      modifies this
      ensures state == old(state).(runSteps := old(state).runSteps + [step])
      ensures revision == old(state).revision
    {
      state := state.(runSteps := state.runSteps + [step]);
      revision := state.revision;
    }
  }
}
