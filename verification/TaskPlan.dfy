/** What a run of a task meets and does: the accesses of the store, the answers of the roles, and its own entries. */
module TaskPlan {
  import opened Options
  import opened StateStore

  /** What another client does: it replaces the state under a new revision, or appends a run step. */
  datatype ForeignMove = Replace(next: Project) | AppendStep(step: RunStep)

  function Moved(s: Project, move: ForeignMove): Project {
    match move
    case Replace(next) => WithRevision(next, s.revision + 1)
    case AppendStep(step) => s.(runSteps := s.runSteps + [step])
  }

  function Interfered(s: Project, moves: seq<ForeignMove>): Project {
    if moves == [] then s else Moved(Interfered(s, moves[..|moves| - 1]), moves[|moves| - 1])
  }

  /** The entries a run must not lose. */
  datatype Item =
    | ArtifactItem(a: Artifact) | FailureItem(f: Failure) | DecisionItem(d: Decision) | PolicyItem(p: PolicyDecision)

  function Items(p: Project): set<Item> {
    (set a | a in p.artifacts :: ArtifactItem(a)) + (set f | f in p.failures :: FailureItem(f)) +
    (set d | d in p.decisions :: DecisionItem(d)) + (set d | d in p.policyDecisions :: PolicyItem(d))
  }

  /** The working copy with an entry appended. */
  function Pushed(p: Project, i: Item): Project {
    match i
    case ArtifactItem(a) => p.(artifacts := p.artifacts + [a])
    case FailureItem(f) => p.(failures := p.failures + [f])
    case DecisionItem(d) => p.(decisions := p.decisions + [d])
    case PolicyItem(d) => p.(policyDecisions := p.policyDecisions + [d])
  }

  function ChangeFor(i: Item): Change {
    match i
    case ArtifactItem(a) => AddArtifact(a)
    case FailureItem(f) => AddFailure(f)
    case DecisionItem(d) => AddDecision(d)
    case PolicyItem(d) => AddPolicyDecision(d)
  }

  lemma InterferenceKeepsItems(s: Project, moves: seq<ForeignMove>)
    ensures Interfered(s, moves).revision >= s.revision
    ensures Interfered(s, moves).revision == s.revision ==> Items(Interfered(s, moves)) == Items(s)
  {
  }

  lemma PushedItems(p: Project, i: Item)
    ensures Items(Pushed(p, i)) == Items(p) + {i} && Pushed(p, i).revision == p.revision
  {
    match i {
      case ArtifactItem(a) => assert forall x :: x in p.artifacts + [a] <==> x in p.artifacts || x == a;
      case FailureItem(f) => assert forall x :: x in p.failures + [f] <==> x in p.failures || x == f;
      case DecisionItem(d) => assert forall x :: x in p.decisions + [d] <==> x in p.decisions || x == d;
      case PolicyItem(d) => assert forall x :: x in p.policyDecisions + [d] <==> x in p.policyDecisions || x == d;
    }
  }

  lemma ItemsIgnoreTheRest(p: Project, q: Project)
    requires p.artifacts == q.artifacts && p.failures == q.failures
    requires p.decisions == q.decisions && p.policyDecisions == q.policyDecisions
    ensures Items(p) == Items(q)
  {
  }

  /** An append adds its entry at most: an artifact whose id is known already is not appended again. */
  lemma ChangedItems(p: Project, i: Item)
    requires ApplyChange(p, ChangeFor(i)).Some?
    ensures var after := ApplyChange(p, ChangeFor(i)).value;
            after.revision == p.revision && Items(after) + {i} == Items(p) + {i}
  {
    PushedItems(p, i);
    if i.FailureItem? {
      ItemsIgnoreTheRest(ApplyChange(p, ChangeFor(i)).value, Pushed(p, i));
    }
  }

  lemma RecordedItems(s: Project, i: Item, expected: int)
    requires Record(s, ChangeFor(i), Some(expected)).1.Committed?
    ensures var s' := Record(s, ChangeFor(i), Some(expected)).0;
            expected == s.revision && s'.revision == s.revision + 1 && Items(s') + {i} == Items(s) + {i}
  {
    hide ApplyChange;
    ChangedItems(s, i);
    var after := ApplyChange(s, ChangeFor(i)).value;
    ItemsIgnoreTheRest(WithRevision(after, s.revision + 1), after);
  }

  /** A write under the store's own revision goes through, unless it is about a missing task. */
  lemma RecordCommits(s: Project, i: Item, expected: nat)
    ensures var (s', outcome) := Record(s, ChangeFor(i), Some(expected));
            && (expected == s.revision && (i.FailureItem? ==> i.f.taskId in s.tasks) ==> outcome.Committed?)
            && (outcome.Committed? ==> s'.tasks == s.tasks && (i.PolicyItem? ==> EndsWith(s'.policyDecisions, i.p)))
  {
    hide HasArtifact;
  }

  lemma Recording(store: set<Item>, store': set<Item>, local: set<Item>, unpushed: set<Item>, rest: set<Item>, i: Item)
    requires store' + {i} == store + {i} && store - local - unpushed == rest
    ensures store' - local - (unpushed + {i}) == rest - {i}
  {
    forall x ensures x in store' - local - (unpushed + {i}) <==> x in rest - {i} {
      assert x in store' + {i} <==> x in store + {i};
      assert x in rest <==> x in store - local - unpushed;
    }
  }

  lemma Pushing(store: set<Item>, local: set<Item>, unpushed: set<Item>, rest: set<Item>, i: Item)
    requires store - local - unpushed == rest
    ensures store - (local + {i}) - (unpushed - {i}) == rest - {i}
  {
    forall x ensures x in store - (local + {i}) - (unpushed - {i}) <==> x in rest - {i} {
      assert x in rest <==> x in store - local - unpushed;
    }
  }

  // ----- The accesses of a run -----

  /** What the run does to the store; `Looked` is a read, or a write that was turned down. */
  datatype Act = Looked | Wrote(item: Item, expected: nat) | Stepped(step: RunStep) | SavedCopy(copy: Project)

  /** The store's state directly before an act, and directly after it. */
  datatype Access = Access(before: Project, after: Project, act: Act)

  function After(before: Project, act: Act): Project {
    match act
    case Looked => before
    case Wrote(item, expected) => Record(before, ChangeFor(item), Some(expected)).0
    case Stepped(step) => before.(runSteps := before.runSteps + [step])
    case SavedCopy(copy) => Swap(before, copy, Some(copy.revision)).0
  }

  /** A save that went through. */
  predicate IsSave(a: Access) {
    a.act.SavedCopy? && a.act.copy.revision == a.before.revision
  }

  /** What the store holds after the accesses in `log`. */
  function Now(initial: Project, log: seq<Access>): Project {
    if log == [] then initial else log[|log| - 1].after
  }

  /** Each access finds what the last one left, as others have changed it since, and has the effect of its act. */
  predicate Faithful(initial: Project, foreign: nat -> seq<ForeignMove>, admits: nat -> bool, log: seq<Access>) {
    log == [] ||
      (var n := |log| - 1;
       && Faithful(initial, foreign, admits, log[..n])
       && log[n].before == Interfered(Now(initial, log[..n]), foreign(n))
       && log[n].after == After(log[n].before, log[n].act)
       && (log[n].act != Looked ==> admits(n)))
  }

  function Saves(log: seq<Access>): seq<Access> {
    if log == [] then []
    else Saves(log[..|log| - 1]) + if IsSave(log[|log| - 1]) then [log[|log| - 1]] else []
  }

  /** The steps recorded from access `from` on. */
  function StepsSince(log: seq<Access>, from: nat): seq<RunStep> {
    if |log| <= from then []
    else StepsSince(log[..|log| - 1], from) + if log[|log| - 1].act.Stepped? then [log[|log| - 1].act.step] else []
  }

  /** Access `k` found the store holding `p`. */
  predicate Found(log: seq<Access>, k: nat, p: Project) {
    k < |log| && log[k].before == p
  }

  /** The load found `loaded`, and access `at` found `adopted`. */
  predicate Anchored(log: seq<Access>, loaded: Project, at: nat, adopted: Project) {
    log != [] ==> Found(log, 0, loaded) && Found(log, at, adopted)
  }

  lemma LogNext(initial: Project, foreign: nat -> seq<ForeignMove>, admits: nat -> bool, log: seq<Access>, a: Access)
    requires Faithful(initial, foreign, admits, log)
    requires a.before == Interfered(Now(initial, log), foreign(|log|)) && a.after == After(a.before, a.act)
    requires a.act != Looked ==> admits(|log|)
    ensures Faithful(initial, foreign, admits, log + [a]) && Now(initial, log + [a]) == a.after
    ensures Saves(log + [a]) == if IsSave(a) then Saves(log) + [a] else Saves(log)
    ensures forall from: nat | from <= |log| ::
              StepsSince(log + [a], from)
                == if a.act.Stepped? then StepsSince(log, from) + [a.act.step] else StepsSince(log, from)
    ensures forall p, at, q | Anchored(log, p, at, q) && (log == [] ==> p == q == a.before && at == 0) ::
              Anchored(log + [a], p, at, q)
  {
    hide After, Interfered;
    var next := log + [a];
    assert next[..|log|] == log && next[|log|] == a;
    assert Saves(log) + [] == Saves(log);
    forall from: nat | from <= |log| ensures StepsSince(log, from) + [] == StepsSince(log, from) {
    }
  }

  // ----- The oracles of a run -----

  /** A tool call: the step it records if it ran, and the one it records if it did not, or if reporting it failed. */
  datatype ToolCall = ToolCall(ran: bool, step: RunStep, reported: bool, fallback: RunStep)

  datatype Loop = Loop(tools: seq<ToolCall>, throws: bool)

  /**
   * A role execution: if its output is not valid, or cannot be recorded and reported, the role is executed a second
   * time, and that one counts.
   */
  datatype Role = Role(
    first: Loop, valid: bool, step: RunStep, reported: bool,
    second: Loop, secondValid: bool, secondStep: RunStep, secondReported: bool)

  /** The steps that reach the store, whether the execution succeeds, and the number of the next access. */
  datatype Ran = Ran(steps: seq<RunStep>, ok: bool, next: nat)

  /** The record of one step at access `n`. */
  function StepRun(step: RunStep, admits: nat -> bool, n: nat): Ran {
    Ran(if admits(n) then [step] else [], admits(n), n + 1)
  }

  function Then(first: Ran, second: Ran): Ran {
    Ran(first.steps + second.steps, second.ok, second.next)
  }

  function ToolRun(call: ToolCall, admits: nat -> bool, n: nat): Ran {
    if !call.ran then StepRun(call.fallback, admits, n)
    else
      var first := StepRun(call.step, admits, n);
      if first.ok && call.reported then first else Then(first, StepRun(call.fallback, admits, n + 1))
  }

  function LoopRun(tools: seq<ToolCall>, throws: bool, admits: nat -> bool, n: nat): Ran {
    if tools == [] then Ran([], !throws, n)
    else
      var first := ToolRun(tools[0], admits, n);
      if !first.ok then first else Then(first, LoopRun(tools[1..], throws, admits, first.next))
  }

  /** The second execution of a role, and its outcome. */
  function SecondRun(role: Role, admits: nat -> bool, n: nat): Ran {
    var loop := LoopRun(role.second.tools, role.second.throws, admits, n);
    if !loop.ok then loop
    else
      var r := Then(loop, StepRun(role.secondStep, admits, loop.next));
      r.(ok := r.ok && role.secondValid && role.secondReported)
  }

  function RoleRun(role: Role, admits: nat -> bool, n: nat): Ran {
    var loop := LoopRun(role.first.tools, role.first.throws, admits, n);
    if !loop.ok then loop
    else if !role.valid then Then(loop, SecondRun(role, admits, loop.next))
    else
      var r := Then(loop, StepRun(role.step, admits, loop.next));
      if r.ok && role.reported then r else Then(r, SecondRun(role, admits, r.next))
  }

  /**
   * The access whose revision a run adopts: the load itself, or, for a run that selects its task, the one right
   * after the selection, which follows the load and the first check of the lease.
   */
  function AdoptionAt(selection: Option<Role>, admits: nat -> bool): nat {
    match selection
    case None => 0
    case Some(role) => RoleRun(role, admits, 2).next
  }

  /** `failures` and `blockingIssues` count what the output lists. */
  datatype Testing = Testing(role: Role, passed: bool, failures: nat, checksMissing: bool, stages: seq<Artifact>)
  datatype Review = Review(role: Role, approved: bool, blockingIssues: nat)
  datatype GitWrite = GitArtifact(artifact: Artifact) | GitPolicy(decision: PolicyDecision)
  datatype Action = Retry | Split(report: Artifact, decision: Decision) | Block(report: Artifact)

  datatype Plan = Plan(
    taskId: Id,
    selection: Option<Role>,
    workspace: Artifact, branch: Artifact,
    preflight: PolicyDecision,
    prompt: Role, promptArtifact: Artifact,
    executor: Role, policyViolated: bool,
    review: Option<Review>,
    testing: Option<Testing>,
    evidenceMissing: bool,
    taskSummary: Artifact, runSummary: Artifact,
    git: seq<GitWrite>, gitThrows: bool, gitPending: bool,
    postflight: PolicyDecision,
    action: Action,
    costSummary: Artifact)

  datatype Result = Completed | ApprovalPending | Handled | Threw

  /** Whether a run goes on, hands its task to the failure handler, or throws. */
  datatype Verdict = Proceed | Reject(reason: string) | Abort

  // ----- What the plan alone decides -----

  predicate ReviewRejects(plan: Plan) {
    plan.review.Some? && !(plan.review.value.approved && plan.review.value.blockingIssues == 0)
  }

  /** The tests are run only if the review lets the work pass. */
  predicate TestsReject(plan: Plan) {
    !ReviewRejects(plan) && plan.testing.Some? && !(plan.testing.value.passed && plan.testing.value.failures == 0)
  }

  predicate Rejected(plan: Plan) {
    ReviewRejects(plan) || TestsReject(plan)
  }

  function TheFailure(plan: Plan): Failure {
    Failure(plan.taskId, if ReviewRejects(plan) then "review_rejected" else "test_failed")
  }

  /** The quality stages that reach the store. */
  function StagesOf(plan: Plan): seq<Artifact> {
    if plan.testing.Some? && !ReviewRejects(plan) then plan.testing.value.stages else []
  }

  function GitArtifacts(s: seq<GitWrite>): seq<Artifact> {
    if s == [] then []
    else GitArtifacts(s[..|s| - 1]) + if s[|s| - 1].GitArtifact? then [s[|s| - 1].artifact] else []
  }

  function GitPolicies(s: seq<GitWrite>): seq<PolicyDecision> {
    if s == [] then []
    else GitPolicies(s[..|s| - 1]) + if s[|s| - 1].GitPolicy? then [Issued(s[|s| - 1].decision)] else []
  }

  /** `q` has these artifacts and policy decisions more than `p`; revision and run steps are of no account. */
  predicate Extended(p: Project, q: Project, artifacts: seq<Artifact>, policies: seq<PolicyDecision>) {
    && q.artifacts == p.artifacts + artifacts && q.policyDecisions == p.policyDecisions + policies
    && q.failures == p.failures && q.decisions == p.decisions
    && q.tasks == p.tasks && q.completed == p.completed && q.activeTask == p.activeTask
    && q.retryCounts == p.retryCounts
  }

  lemma ExtendedByNothing(p: Project)
    ensures Extended(p, p, [], [])
  {
  }

  lemma GitItemIn(s: seq<GitWrite>, k: nat)
    requires k < |s|
    ensures GitItem(s[k]) in GitItems(s)
  {
    assert s[k] in s;
  }

  predicate EndsWithArtifact(s: seq<Artifact>, a: Artifact) {
    s != [] && s[|s| - 1] == a
  }

  /** The access of the cost summary: a write, unless it was turned down. */
  predicate SummaryTried(access: Access, admitted: bool, a: Artifact) {
    if admitted then access.act.Wrote? && access.act.item == ArtifactItem(a) else access.act == Looked
  }

  predicate EndsWith(s: seq<PolicyDecision>, d: PolicyDecision) {
    s != [] && s[|s| - 1] == d
  }

  lemma StepsAppend(a: seq<RunStep>, b: seq<RunStep>, c: seq<RunStep>, d: seq<RunStep>)
    ensures a + b + c + d == a + (b + (c + d)) && a + b + c == a + (b + c)
  {
    assert a + b + c + d == a + (b + (c + d));
    assert a + b + c == a + (b + c);
  }

  /** A verdict other than an abort says what the review and the tests say. */
  predicate VerdictOk(plan: Plan, verdict: Verdict) {
    verdict == Abort || verdict == if Rejected(plan) then Reject(TheFailure(plan).reason) else Proceed
  }

  lemma AbortIsOk(plan: Plan)
    ensures VerdictOk(plan, Abort)
  {
  }

  lemma ExtendedTwice(p: Project, q: Project, r: Project, a: seq<Artifact>, b: seq<Artifact>,
                      x: seq<PolicyDecision>, y: seq<PolicyDecision>)
    requires Extended(p, q, a, x) && Extended(q, r, b, y)
    ensures Extended(p, r, a + b, x + y)
  {
    assert p.artifacts + a + b == p.artifacts + (a + b);
    assert p.policyDecisions + x + y == p.policyDecisions + (x + y);
  }

  /** What the snapshot of a run that completes its task holds, compared with what the run loaded. */
  predicate HoldsCompletion(plan: Plan, loaded: Project, saved: Project) {
    && saved.tasks == loaded.tasks[plan.taskId := "done"]
    && saved.completed == loaded.completed + (if plan.taskId in loaded.completed then [] else [plan.taskId])
    && saved.activeTask == None
    && saved.retryCounts == loaded.retryCounts
    && saved.failures == loaded.failures && saved.decisions == loaded.decisions
    && saved.artifacts == loaded.artifacts + [plan.workspace, plan.branch, plan.promptArtifact] + StagesOf(plan)
                          + [plan.taskSummary, plan.runSummary] + GitArtifacts(plan.git)
    && saved.policyDecisions == loaded.policyDecisions + [Issued(plan.preflight)] + GitPolicies(plan.git)
                                + [Issued(plan.postflight)]
  }

  /** What the snapshot of a run that handles a failure holds; `retries` is the count the store gave the failure. */
  predicate HoldsFailure(plan: Plan, loaded: Project, saved: Project, retries: nat) {
    && saved.tasks == (match plan.action
                       case Retry => loaded.tasks
                       case Split(_, _) => loaded.tasks[plan.taskId := "superseded"]
                       case Block(_) => loaded.tasks[plan.taskId := "blocked"])
    && saved.completed == loaded.completed && saved.activeTask == None
    && saved.retryCounts == loaded.retryCounts[plan.taskId := retries]
    && saved.failures == loaded.failures + [TheFailure(plan)]
    && saved.decisions == loaded.decisions + (if plan.action.Split? then [plan.action.decision] else [])
    && saved.artifacts == loaded.artifacts + [plan.workspace, plan.branch, plan.promptArtifact] + StagesOf(plan)
                          + (if plan.action.Retry? then [] else [plan.action.report])
    && saved.policyDecisions == loaded.policyDecisions + [Issued(plan.preflight)]
  }

  /** One of the accesses recorded the failure, and left its task with that many retries in the store. */
  ghost predicate Counted(log: seq<Access>, f: Failure, retries: nat) {
    exists k :: 0 <= k < |log| && CountedAt(log[k], f, retries)
  }

  predicate CountedAt(a: Access, f: Failure, retries: nat) {
    && a.act.Wrote? && a.act.item == FailureItem(f)
    && RetryCount(a.after, f.taskId) == retries == RetryCount(a.before, f.taskId) + 1
  }

  /** What a run that does not throw answers and saves. */
  ghost predicate Concluded(plan: Plan, log: seq<Access>, loaded: Project, saved: Project, result: Result) {
    && result == (if Rejected(plan) then Handled else if plan.gitPending then ApprovalPending else Completed)
    && if Rejected(plan)
       then exists retries: nat ::
              HoldsFailure(plan, loaded, saved, retries) && Counted(log, TheFailure(plan), retries)
       else HoldsCompletion(plan, loaded, saved)
  }

  lemma CountedGrows(log: seq<Access>, more: seq<Access>, f: Failure, retries: nat)
    requires log <= more && Counted(log, f, retries)
    ensures Counted(more, f, retries)
  {
    var k :| 0 <= k < |log| && CountedAt(log[k], f, retries);
    assert more[k] == log[k];
  }

  // The stages of a conclusion, each compared with the copy before it.

  /** All but revision and run steps. */
  predicate SameContents(p: Project, q: Project) {
    && q.artifacts == p.artifacts && q.policyDecisions == p.policyDecisions
    && q.failures == p.failures && q.decisions == p.decisions
    && q.tasks == p.tasks && q.completed == p.completed && q.activeTask == p.activeTask
    && q.retryCounts == p.retryCounts
  }

  predicate CompletedIn(p: Project, q: Project, taskId: Id) {
    q == p.(tasks := p.tasks[taskId := "done"],
            completed := p.completed + (if taskId in p.completed then [] else [taskId]),
            activeTask := None)
  }

  predicate FailureIn(p: Project, q: Project, f: Failure, retries: nat) {
    && q.failures == p.failures + [f] && q.retryCounts == p.retryCounts[f.taskId := retries]
    && q.artifacts == p.artifacts && q.policyDecisions == p.policyDecisions && q.decisions == p.decisions
    && q.tasks == p.tasks && q.completed == p.completed && q.activeTask == None
  }

  predicate ActedIn(p: Project, q: Project, plan: Plan) {
    && q.tasks == (match plan.action
                   case Retry => p.tasks
                   case Split(_, _) => p.tasks[plan.taskId := "superseded"]
                   case Block(_) => p.tasks[plan.taskId := "blocked"])
    && q.artifacts == p.artifacts + (if plan.action.Retry? then [] else [plan.action.report])
    && q.decisions == p.decisions + (if plan.action.Split? then [plan.action.decision] else [])
    && q.policyDecisions == p.policyDecisions && q.failures == p.failures
    && q.completed == p.completed && q.activeTask == p.activeTask && q.retryCounts == p.retryCounts
  }

  predicate CompletesFrom(plan: Plan, p: Project, saved: Project) {
    && saved.tasks == p.tasks[plan.taskId := "done"]
    && saved.completed == p.completed + (if plan.taskId in p.completed then [] else [plan.taskId])
    && saved.activeTask == None && saved.retryCounts == p.retryCounts
    && saved.failures == p.failures && saved.decisions == p.decisions
    && saved.artifacts == p.artifacts + ([plan.taskSummary, plan.runSummary] + GitArtifacts(plan.git))
    && saved.policyDecisions == p.policyDecisions + (GitPolicies(plan.git) + [Issued(plan.postflight)])
  }

  predicate FailsFrom(plan: Plan, p: Project, saved: Project, retries: nat) {
    && saved.tasks == (match plan.action
                       case Retry => p.tasks
                       case Split(_, _) => p.tasks[plan.taskId := "superseded"]
                       case Block(_) => p.tasks[plan.taskId := "blocked"])
    && saved.completed == p.completed && saved.activeTask == None
    && saved.retryCounts == p.retryCounts[plan.taskId := retries]
    && saved.failures == p.failures + [TheFailure(plan)]
    && saved.decisions == p.decisions + (if plan.action.Split? then [plan.action.decision] else [])
    && saved.artifacts == p.artifacts + (if plan.action.Retry? then [] else [plan.action.report])
    && saved.policyDecisions == p.policyDecisions
  }

  /** The copy when the run as such starts. */
  predicate StartedFrom(plan: Plan, loaded: Project, started: Project) {
    && started.artifacts == loaded.artifacts + [plan.workspace, plan.branch]
    && started.policyDecisions == loaded.policyDecisions
    && started.failures == loaded.failures && started.decisions == loaded.decisions
    && started.tasks == loaded.tasks && started.completed == loaded.completed
    && started.activeTask == Some(plan.taskId) && started.retryCounts == loaded.retryCounts
  }

  lemma CompletionComposes(plan: Plan, p: Project, done: Project, finished: Project, flushed: Project, saved: Project)
    requires CompletedIn(p, done, plan.taskId)
    requires Extended(done, finished, [plan.taskSummary, plan.runSummary] + GitArtifacts(plan.git),
                      GitPolicies(plan.git) + [Issued(plan.postflight)])
    requires SameContents(finished, flushed) && SameContents(flushed, saved)
    ensures CompletesFrom(plan, p, saved)
  {
  }

  lemma FailureComposes(plan: Plan, p: Project, noted: Project, acted: Project, saved: Project, retries: nat)
    requires FailureIn(p, noted, TheFailure(plan), retries) && ActedIn(noted, acted, plan) && SameContents(acted, saved)
    ensures FailsFrom(plan, p, saved, retries)
  {
  }

  ghost predicate ConcludesFrom(plan: Plan, log: seq<Access>, mid: Project, saved: Project, retries: nat,
                                result: Result) {
    && result == (if Rejected(plan) then Handled else if plan.gitPending then ApprovalPending else Completed)
    && if Rejected(plan) then FailsFrom(plan, mid, saved, retries) && Counted(log, TheFailure(plan), retries)
       else CompletesFrom(plan, mid, saved)
  }

  /** From the load over the start of the run and its work to what is saved. */
  lemma RunConcludes(plan: Plan, loaded: Project, started: Project, mid: Project, saved: Project,
                     log: seq<Access>, log': seq<Access>, retries: nat, result: Result)
    requires StartedFrom(plan, loaded, started)
    requires Extended(started, mid, [plan.promptArtifact] + StagesOf(plan), [Issued(plan.preflight)])
    requires ConcludesFrom(plan, log, mid, saved, retries, result) && log <= log'
    ensures Concluded(plan, log', loaded, saved, result)
  {
    hide Counted, StagesOf, GitArtifacts, GitPolicies, Issued, Rejected, TheFailure;
    var first, stages := [plan.workspace, plan.branch], StagesOf(plan);
    assert loaded.artifacts + first + ([plan.promptArtifact] + stages)
        == loaded.artifacts + [plan.workspace, plan.branch, plan.promptArtifact] + stages;
    if Rejected(plan) {
      CountedGrows(log, log', TheFailure(plan), retries);
      assert HoldsFailure(plan, loaded, saved, retries);
    } else {
      var a, x := [plan.taskSummary, plan.runSummary], GitPolicies(plan.git);
      var p, q := mid.artifacts, mid.policyDecisions;
      assert p + (a + GitArtifacts(plan.git)) == p + a + GitArtifacts(plan.git);
      assert q + (x + [Issued(plan.postflight)]) == q + x + [Issued(plan.postflight)];
    }
  }

  /** The steps of the work that starts at access `n`: prompt, execution, and review and tests as far as they get. */
  function WorkSteps(plan: Plan, admits: nat -> bool, n: nat): seq<RunStep> {
    var prompt := RoleRun(plan.prompt, admits, n + 2);
    var executor := RoleRun(plan.executor, admits, prompt.next + 1);
    prompt.steps + (executor.steps + ExamSteps(plan, admits, executor.next))
  }

  function ExamSteps(plan: Plan, admits: nat -> bool, n: nat): seq<RunStep> {
    var review := if plan.review.Some? then RoleRun(plan.review.value.role, admits, n) else Ran([], true, n);
    if ReviewRejects(plan) || plan.testing.None? then review.steps
    else review.steps + RoleRun(plan.testing.value.role, admits, review.next).steps
  }

  /** The access at which the run as such starts: after the load, the selection, and the two artifacts. */
  function StartAt(selection: Option<Role>, admits: nat -> bool): nat {
    match selection
    case None => 4
    case Some(_) => AdoptionAt(selection, admits) + 3
  }

  // ----- A run that nobody disturbs -----

  /** Every tool call that is admitted goes well in the end, so only the role itself can fail. */
  predicate RoleSucceeds(role: Role) {
    && !role.first.throws
    && ((role.valid && role.reported) || (!role.second.throws && role.secondValid && role.secondReported))
  }

  function ToolSteps(tools: seq<ToolCall>): seq<RunStep> {
    if tools == [] then []
    else
      (if !tools[0].ran then [tools[0].fallback]
       else if tools[0].reported then [tools[0].step]
       else [tools[0].step, tools[0].fallback]) + ToolSteps(tools[1..])
  }

  /** The steps of a role execution when every access is admitted. */
  function RoleSteps(role: Role): seq<RunStep> {
    ToolSteps(role.first.tools) +
    if role.first.throws then []
    else
      (if role.valid then [role.step] else []) +
      if role.valid && role.reported then []
      else ToolSteps(role.second.tools) + if role.second.throws then [] else [role.secondStep]
  }

  lemma {:induction false} UndisturbedLoop(tools: seq<ToolCall>, throws: bool, admits: nat -> bool, n: nat)
    requires forall k :: admits(k)
    ensures var r := LoopRun(tools, throws, admits, n); r.ok == !throws && r.steps == ToolSteps(tools)
    decreases |tools|
  {
    if tools != [] {
      UndisturbedLoop(tools[1..], throws, admits, ToolRun(tools[0], admits, n).next);
    }
  }

  /** What a role execution comes to when every access is admitted. */
  lemma UndisturbedRole(role: Role, admits: nat -> bool, n: nat)
    requires forall k :: admits(k)
    ensures var r := RoleRun(role, admits, n); r.ok == RoleSucceeds(role) && r.steps == RoleSteps(role)
  {
    hide LoopRun, ToolSteps;
    var first := LoopRun(role.first.tools, role.first.throws, admits, n);
    UndisturbedLoop(role.first.tools, role.first.throws, admits, n);
    if first.ok {
      var m := if role.valid then first.next + 1 else first.next;
      UndisturbedLoop(role.second.tools, role.second.throws, admits, m);
      var tail := ToolSteps(role.second.tools) + if role.second.throws then [] else [role.secondStep];
      assert first.steps + [role.step] + tail == first.steps + ([role.step] + tail);
      assert [] + tail == tail;
      assert first.steps + [role.step] == first.steps + ([role.step] + []);
    }
  }

  /** The steps that an undisturbed run records, from the roles alone. */
  lemma UndisturbedSteps(plan: Plan, admits: nat -> bool, n: nat)
    requires forall k :: admits(k)
    ensures WorkSteps(plan, admits, n) ==
      RoleSteps(plan.prompt) + (RoleSteps(plan.executor) +
      ((if plan.review.Some? then RoleSteps(plan.review.value.role) else []) +
       (if plan.testing.Some? && !ReviewRejects(plan) then RoleSteps(plan.testing.value.role) else [])))
  {
    hide RoleRun, RoleSteps, RoleSucceeds;
    UndisturbedRole(plan.prompt, admits, n + 2);
    var prompt := RoleRun(plan.prompt, admits, n + 2);
    UndisturbedRole(plan.executor, admits, prompt.next + 1);
    var m := RoleRun(plan.executor, admits, prompt.next + 1).next;
    var m' := if plan.review.Some? then RoleRun(plan.review.value.role, admits, m).next else m;
    if plan.review.Some? { UndisturbedRole(plan.review.value.role, admits, m); }
    if plan.testing.Some? { UndisturbedRole(plan.testing.value.role, admits, m'); }
    var review := if plan.review.Some? then RoleSteps(plan.review.value.role) else [];
    assert review + [] == review;
  }

  predicate ReviewAborts(plan: Plan) {
    plan.review.Some? && !RoleSucceeds(plan.review.value.role)
  }

  predicate TestsAbort(plan: Plan) {
    plan.testing.Some? && !ReviewRejects(plan) &&
    (!RoleSucceeds(plan.testing.value.role) || (!TestsReject(plan) && plan.testing.value.checksMissing))
  }

  predicate ExamAborts(plan: Plan) {
    ReviewAborts(plan) || TestsAbort(plan) || (!Rejected(plan) && plan.evidenceMissing)
  }

  predicate WorkAborts(plan: Plan) {
    !RoleSucceeds(plan.prompt) || !RoleSucceeds(plan.executor) || plan.policyViolated || ExamAborts(plan)
  }

  /** The plan itself makes the run throw, even if nobody disturbs it. */
  predicate Throws(plan: Plan) {
    || (plan.selection.Some? && !RoleSucceeds(plan.selection.value))
    || WorkAborts(plan)
    || (!Rejected(plan) && plan.gitThrows)
  }

  const POLICY_VERSION := "policyDecisionPersistenceV1"

  /** The decision as the recorder issues it. */
  function Issued(d: PolicyDecision): PolicyDecision {
    d.(policyVersion := POLICY_VERSION, allows := true)
  }

  predicate SameQuery(a: PolicyDecision, b: PolicyDecision) {
    a.runId == b.runId && a.stepId == b.stepId && a.attempt == b.attempt && a.actionType == b.actionType
  }

  /** The decision read back is neither stale nor a denial. */
  predicate Answers(found: PolicyDecision, asked: PolicyDecision) {
    && SameQuery(found, asked) && found.policyVersion == asked.policyVersion && found.inputHash == asked.inputHash
    && found.allows
  }

  /** The k-th decision is the last one the query finds. */
  predicate LastAnswer(decisions: seq<PolicyDecision>, k: nat, asked: PolicyDecision) {
    && k < |decisions| && SameQuery(decisions[k], asked)
    && forall j | k < j < |decisions| :: !SameQuery(decisions[j], asked)
  }

  function Artifacts(s: seq<Artifact>): set<Item> {
    set a | a in s :: ArtifactItem(a)
  }

  function GitItem(w: GitWrite): Item {
    if w.GitArtifact? then ArtifactItem(w.artifact) else PolicyItem(Issued(w.decision))
  }

  function GitItems(s: seq<GitWrite>): set<Item> {
    set w | w in s :: GitItem(w)
  }

  /** The entries a run makes itself. */
  function Own(plan: Plan): set<Item> {
    Artifacts([plan.workspace, plan.branch, plan.promptArtifact, plan.taskSummary, plan.runSummary]) +
    (if plan.testing.Some? then Artifacts(plan.testing.value.stages) else {}) +
    GitItems(plan.git) +
    {PolicyItem(Issued(plan.preflight)), PolicyItem(Issued(plan.postflight)), FailureItem(TheFailure(plan))} +
    (match plan.action
     case Retry => {}
     case Split(report, decision) => {ArtifactItem(report), DecisionItem(decision)}
     case Block(report) => {ArtifactItem(report)})
  }

  lemma OwnEntries(plan: Plan)
    ensures {ArtifactItem(plan.workspace), ArtifactItem(plan.branch), ArtifactItem(plan.promptArtifact)} <= Own(plan)
    ensures {ArtifactItem(plan.taskSummary), ArtifactItem(plan.runSummary)} <= Own(plan)
    ensures {PolicyItem(Issued(plan.preflight)), PolicyItem(Issued(plan.postflight)), FailureItem(TheFailure(plan))}
         <= Own(plan)
    ensures GitItems(plan.git) <= Own(plan)
    ensures plan.testing.Some? ==> Artifacts(plan.testing.value.stages) <= Own(plan)
    ensures plan.action.Split? ==> {ArtifactItem(plan.action.report), DecisionItem(plan.action.decision)} <= Own(plan)
    ensures plan.action.Block? ==> ArtifactItem(plan.action.report) in Own(plan)
  {
    var first := [plan.workspace, plan.branch, plan.promptArtifact, plan.taskSummary, plan.runSummary];
    assert first[0] in first && first[1] in first && first[2] in first && first[3] in first && first[4] in first;
  }
}
