/** Backlog tasks, and the rule that says which of them may run. */
module Backlog {
  import opened Graph
  import opened Options
  import opened Sorting

  datatype Priority = P0 | P1 | P2 | P3

  datatype Status = Todo | InProgress | Review | Testing | Done | Blocked | Superseded

  datatype Task = Task(
    id: Id,
    featureId: Id,
    splitFrom: Option<Id>,
    title: string,
    priority: Priority,
    status: Status,
    dependsOn: seq<Id>,
    acceptanceCriteria: seq<string>)

  type Tasks = map<Id, Task>

  function DepsOf(tasks: Tasks): Deps {
    map t | t in tasks :: tasks[t].dependsOn
  }

  function PriorityWeight(p: Priority): nat {
    match p
    case P0 => 400
    case P1 => 300
    case P2 => 200
    case P3 => 100
  }

  /** The task raises none of the validator's issues; that it declares a kind is left to the type. */
  predicate ValidTask(t: Task) {
    t.acceptanceCriteria != [] && t.splitFrom != Some(t.id)
  }

  predicate IsExecutable(completed: seq<Id>, blocked: seq<Id>, t: Task) {
    && t.status == Todo
    && t.id !in blocked
    && ValidTask(t)
    && forall d | d in t.dependsOn :: d in completed
  }

  /** The order in which executable tasks are preferred: priority, then split parts, then fewer retries, then id. */
  predicate Preferred(le: (Id, Id) -> bool, retries: map<Id, nat>, a: Task, b: Task) {
    if a.priority != b.priority then PriorityWeight(a.priority) > PriorityWeight(b.priority)
    else if a.splitFrom.Some? != b.splitFrom.Some? then a.splitFrom.Some?
    else if GetOr(retries, a.id, 0) != GetOr(retries, b.id, 0) then GetOr(retries, a.id, 0) < GetOr(retries, b.id, 0)
    else le(a.id, b.id)
  }

  function Executable(completed: seq<Id>, blocked: seq<Id>, tasks: seq<Task>): (r: seq<Task>)
    ensures forall t :: t in r <==> t in tasks && IsExecutable(completed, blocked, t)
  {
    if tasks == [] then []
    else
      (if IsExecutable(completed, blocked, tasks[0]) then [tasks[0]] else [])
      + Executable(completed, blocked, tasks[1..])
  }

  function SelectNextTask(le: (Id, Id) -> bool, retries: map<Id, nat>, completed: seq<Id>, blocked: seq<Id>,
                          tasks: seq<Task>): Option<Task> {
    var sorted := Sort((a, b) => Preferred(le, retries, a, b), Executable(completed, blocked, tasks));
    if sorted == [] then None else Some(sorted[0])
  }

  /**
   * Selection fails exactly when nothing is executable; otherwise it returns the executable task that is
   * preferred to every other one, which no second task can be, so the order of the record is irrelevant.
   */
  lemma SelectNextTaskIsBest(le: (Id, Id) -> bool, retries: map<Id, nat>, completed: seq<Id>, blocked: seq<Id>,
                             tasks: seq<Task>)
    requires TotalOrder(le)
    requires forall a, b | a in tasks && b in tasks && a.id == b.id :: a == b
    ensures var next := SelectNextTask(le, retries, completed, blocked, tasks);
            && (next == None <==> forall t | t in tasks :: !IsExecutable(completed, blocked, t))
            && forall t :: next == Some(t) <==>
                 && t in tasks && IsExecutable(completed, blocked, t)
                 && forall u | u in tasks && IsExecutable(completed, blocked, u) :: Preferred(le, retries, t, u)
  {
    var cmp := (a, b) => Preferred(le, retries, a, b);
    var candidates := Executable(completed, blocked, tasks);
    PreferredIsPreorder(le, retries);
    HeadOfSort(cmp, candidates);
    forall t, u | t in candidates && u in candidates && cmp(t, u) && cmp(u, t) ensures t == u {
      assert t.id == u.id;
    }
    forall t | t in tasks ensures IsExecutable(completed, blocked, t) <==> t in candidates {
    }
  }

  /** P0 is the most urgent. */
  predicate MoreUrgent(a: Priority, b: Priority) {
    match a
    case P0 => b != P0
    case P1 => b == P2 || b == P3
    case P2 => b == P3
    case P3 => false
  }

  /**
   * Spelled out: no executable task is more urgent than the selected one; among the equally urgent it is a split
   * part if there is one, among those it has the fewest retries, and among those the first id.
   */
  lemma SelectionIsLexicographic(le: (Id, Id) -> bool, retries: map<Id, nat>, completed: seq<Id>, blocked: seq<Id>,
                                 tasks: seq<Task>, u: Task)
    requires TotalOrder(le)
    requires forall a, b | a in tasks && b in tasks && a.id == b.id :: a == b
    requires u in tasks && IsExecutable(completed, blocked, u)
    ensures var next := SelectNextTask(le, retries, completed, blocked, tasks);
            && next.Some?
            && var t := next.value;
               && !MoreUrgent(u.priority, t.priority)
               && (u.priority == t.priority && u.splitFrom.Some? ==> t.splitFrom.Some?)
               && (u.priority == t.priority && u.splitFrom.Some? == t.splitFrom.Some? ==>
                     && GetOr(retries, t.id, 0) <= GetOr(retries, u.id, 0)
                     && (GetOr(retries, t.id, 0) == GetOr(retries, u.id, 0) ==> le(t.id, u.id)))
  {
    hide SelectNextTask, TotalOrder;
    SelectNextTaskIsBest(le, retries, completed, blocked, tasks);
    var t := SelectNextTask(le, retries, completed, blocked, tasks).value;
    assert Preferred(le, retries, t, u);
  }

  /** To do, not listed as blocked, with criteria, not its own part, and nothing it depends on unfinished. */
  predicate Ready(completed: seq<Id>, blocked: seq<Id>, t: Task) {
    && t.status == Todo && t.id !in blocked && |t.acceptanceCriteria| > 0
    && !(t.splitFrom.Some? && t.splitFrom.value == t.id)
    && !exists d :: d in t.dependsOn && d !in completed
  }

  /** Selection returns a ready task of the backlog, and nothing only if no task is ready. */
  lemma SelectedIsReady(le: (Id, Id) -> bool, retries: map<Id, nat>, completed: seq<Id>, blocked: seq<Id>,
                        tasks: seq<Task>)
    requires TotalOrder(le)
    requires forall a, b | a in tasks && b in tasks && a.id == b.id :: a == b
    ensures var next := SelectNextTask(le, retries, completed, blocked, tasks);
            match next
            case Some(t) => t in tasks && Ready(completed, blocked, t)
            case None => forall t | t in tasks :: !Ready(completed, blocked, t)
  {
    hide SelectNextTask, TotalOrder;
    SelectNextTaskIsBest(le, retries, completed, blocked, tasks);
  }

  lemma PreferredIsPreorder(le: (Id, Id) -> bool, retries: map<Id, nat>)
    requires TotalOrder(le)
    ensures Preorder((a, b) => Preferred(le, retries, a, b))
    ensures forall a, b | Preferred(le, retries, a, b) && Preferred(le, retries, b, a) :: a.id == b.id
  {
  }

  /** The head of a sorted array comes before every element of it. */
  lemma HeadOfSort<T(!new)>(le: (T, T) -> bool, s: seq<T>)
    requires Preorder(le)
    ensures var r := Sort(le, s);
            (r == [] <==> s == []) && (r != [] ==> r[0] in s && forall x | x in s :: le(r[0], x))
  {
    SortPermutes(le, s);
    SortSorts(le, s);
    var r := Sort(le, s);
    forall x | x in s ensures le(r[0], x) {
      var i :| 0 <= i < |r| && r[i] == x;
      assert le(x, x);
    }
  }
}

/** Splitting a task that keeps failing into two parts that are done one after the other. */
module TaskSplitting {
  import opened Graph
  import opened Options
  import opened Backlog

  datatype SplitPlan = SplitPlan(first: Task, second: Task)

  function FirstPart(id: Id): Id { id + "--part-1" }

  function SecondPart(id: Id): Id { id + "--part-2" }

  function NarrowChange(): string { "Implement the narrowest viable change for the parent task" }

  function RemainingPath(): string { "Validate the remaining integration path after the narrow change" }

  function SplitAcceptanceCriteria(criteria: seq<string>): (seq<string>, seq<string>) {
    if |criteria| <= 1 then
      ([NarrowChange()], criteria + [RemainingPath()])
    else
      var midpoint := (|criteria| + 1) / 2;
      (criteria[..midpoint], criteria[midpoint..])
  }

  function BoostPriority(p: Priority): Priority {
    if p == P3 then P2 else if p == P2 then P1 else p
  }

  function SplitTaskForRetry(t: Task): SplitPlan {
    var (firstCriteria, secondCriteria) := SplitAcceptanceCriteria(t.acceptanceCriteria);
    var first := t.(
      id := FirstPart(t.id),
      splitFrom := Some(t.id),
      title := t.title + " [part 1]",
      priority := BoostPriority(t.priority),
      acceptanceCriteria := firstCriteria,
      status := Todo);
    var second := t.(
      id := SecondPart(t.id),
      splitFrom := Some(t.id),
      title := t.title + " [part 2]",
      priority := BoostPriority(t.priority),
      dependsOn := [FirstPart(t.id)],
      acceptanceCriteria := secondCriteria,
      status := Todo);
    SplitPlan(first, second)
  }

  /** First occurrences only, as spreading a `Set` gives them. */
  function Unique(s: seq<Id>): (r: seq<Id>)
    ensures forall x :: x in r <==> x in s
    ensures forall i, j | 0 <= i < j < |r| :: r[i] != r[j]
  {
    if s == [] then []
    else
      var front := Unique(s[..|s| - 1]);
      assert s == s[..|s| - 1] + [s[|s| - 1]];
      if s[|s| - 1] in front then front else front + [s[|s| - 1]]
  }

  function Replace(s: seq<Id>, from: Id, to: Id): (r: seq<Id>)
    ensures |r| == |s|
    ensures forall i | 0 <= i < |s| :: r[i] == if s[i] == from then to else s[i]
  {
    seq(|s|, i requires 0 <= i < |s| => if s[i] == from then to else s[i])
  }

  /** One step of the rewriting loop: `t` now waits for the last part wherever it waited for the parent. */
  function RewriteTask(t: Task, parent: Id): Task {
    if t.id in {parent, FirstPart(parent), SecondPart(parent)} || parent !in t.dependsOn then t
    else t.(dependsOn := Unique(Replace(t.dependsOn, parent, SecondPart(parent))))
  }

  function RewriteSuperseded(tasks: Tasks, parent: Id): Tasks {
    map k | k in tasks :: RewriteTask(tasks[k], parent)
  }

  function SplitTasks(tasks: Tasks, parent: Task): Tasks {
    var plan := SplitTaskForRetry(parent);
    RewriteSuperseded(
      tasks[parent.id := parent.(status := Superseded)][plan.first.id := plan.first][plan.second.id := plan.second],
      parent.id)
  }

  /** Each task is stored under its own id. */
  predicate Keyed(tasks: Tasks) {
    forall k | k in tasks :: tasks[k].id == k
  }

  predicate FreshParts(tasks: Tasks, parent: Id) {
    FirstPart(parent) !in tasks && SecondPart(parent) !in tasks
  }

  lemma PartIdsDistinct(p: Id, q: Id)
    ensures FirstPart(p) != p && SecondPart(p) != p && FirstPart(p) != SecondPart(q)
    ensures FirstPart(p) == FirstPart(q) || SecondPart(p) == SecondPart(q) ==> p == q
  {
    assert |FirstPart(p)| > |p| && |SecondPart(p)| > |p|;
    assert FirstPart(p)[|FirstPart(p)| - 1] == '1' && SecondPart(q)[|SecondPart(q)| - 1] == '2';
    assert FirstPart(p)[..|p|] == p && SecondPart(p)[..|p|] == p;
    assert FirstPart(q)[..|q|] == q && SecondPart(q)[..|q|] == q;
  }

  /** Nothing the parent promised is lost: its criteria are handed on in order, and no part is left without any. */
  lemma CriteriaSurvive(t: Task)
    ensures var plan := SplitTaskForRetry(t);
            && plan.first.acceptanceCriteria != [] && plan.second.acceptanceCriteria != []
            && (|t.acceptanceCriteria| >= 2 ==>
                  0 <= |plan.first.acceptanceCriteria| - |plan.second.acceptanceCriteria| <= 1)
            && (|t.acceptanceCriteria| < 2 ==>
                  |plan.first.acceptanceCriteria| == 1 &&
                  |plan.second.acceptanceCriteria| == |t.acceptanceCriteria| + 1)
            && (|t.acceptanceCriteria| >= 2 ==>
                  plan.first.acceptanceCriteria + plan.second.acceptanceCriteria == t.acceptanceCriteria)
            && (|t.acceptanceCriteria| < 2 ==> t.acceptanceCriteria <= plan.second.acceptanceCriteria)
  {
    hide NarrowChange, RemainingPath;
  }

  /**
   * A part is never less urgent than its parent, and more urgent by one step if possible; it belongs to the same
   * feature.
   */
  lemma PartsStayUrgent(t: Task)
    ensures var plan := SplitTaskForRetry(t);
            && plan.first.priority == plan.second.priority
            && !MoreUrgent(t.priority, plan.first.priority)
            && (t.priority == P2 || t.priority == P3 ==> MoreUrgent(plan.first.priority, t.priority))
            && (forall q :: !(MoreUrgent(plan.first.priority, q) && MoreUrgent(q, t.priority)))
            && plan.first.featureId == plan.second.featureId == t.featureId
            && plan.first.title == t.title + " [part 1]" && plan.second.title == t.title + " [part 2]"
            && plan.first.status == plan.second.status == Todo
  {
    hide FirstPart, SecondPart, NarrowChange, RemainingPath;
  }

  /** Where a split puts what. */
  lemma SplitStores(tasks: Tasks, p: Id)
    requires p in tasks && Keyed(tasks)
    ensures var after := SplitTasks(tasks, tasks[p]);
            && after.Keys == tasks.Keys + {FirstPart(p), SecondPart(p)}
            && Keyed(after)
            && after[p] == tasks[p].(status := Superseded)
            && after[FirstPart(p)] == SplitTaskForRetry(tasks[p]).first
            && after[SecondPart(p)] == SplitTaskForRetry(tasks[p]).second
            && forall k | k in tasks && k != p && k != FirstPart(p) && k != SecondPart(p) ::
                 after[k] == RewriteTask(tasks[k], p) && after[k].splitFrom == tasks[k].splitFrom
  {
    hide FirstPart, SecondPart, SplitAcceptanceCriteria, Unique, Replace, BoostPriority;
    PartIdsDistinct(p, p);
  }

  lemma PlannedDependencies(t: Task)
    ensures var plan := SplitTaskForRetry(t);
            && plan.first.dependsOn == t.dependsOn && plan.second.dependsOn == [FirstPart(t.id)]
            && plan.first.splitFrom == Some(t.id) && plan.second.splitFrom == Some(t.id)
            && plan.first.id == FirstPart(t.id) && plan.second.id == SecondPart(t.id)
  {
    hide FirstPart, SecondPart, SplitAcceptanceCriteria;
  }

  /**
   * The parts are stored under derived ids without looking whether those are taken. As long as no task claims
   * to come from `p` already, every stored task keeps its origin exactly when both derived ids are free.
   */
  lemma SplitOverwritesIffTaken(tasks: Tasks, p: Id)
    requires p in tasks && Keyed(tasks)
    requires forall k | k in tasks :: tasks[k].splitFrom != Some(p)
    ensures SplitTasks(tasks, tasks[p]).Keys >= tasks.Keys
    ensures (forall k | k in tasks :: SplitTasks(tasks, tasks[p])[k].splitFrom == tasks[k].splitFrom)
            <==> FreshParts(tasks, p)
  {
    hide FirstPart, SecondPart, SplitTasks, SplitTaskForRetry, RewriteTask;
    PartIdsDistinct(p, p);
    SplitStores(tasks, p);
    PlannedDependencies(tasks[p]);
    var after := SplitTasks(tasks, tasks[p]);
    if FirstPart(p) in tasks {
      assert after[FirstPart(p)].splitFrom != tasks[FirstPart(p)].splitFrom;
    } else if SecondPart(p) in tasks {
      assert after[SecondPart(p)].splitFrom != tasks[SecondPart(p)].splitFrom;
    }
  }

  /** A backlog in which splitting `A` replaces the unrelated task `A--part-1` and drops its two criteria. */
  lemma SplitCanOverwrite()
    ensures var a := Task("A", "F", None, "a", P1, Todo, [], ["x"]);
            var b := Task("A--part-1", "F", None, "b", P1, Todo, [], ["y", "z"]);
            var tasks := map["A" := a, "A--part-1" := b];
            Keyed(tasks) && |SplitTasks(tasks, a)["A--part-1"].acceptanceCriteria| == 1
  {
    hide NarrowChange, RemainingPath;
    assert FirstPart("A") == "A--part-1";
    PartIdsDistinct("A", "A");
  }

  /** The dependency edges after a split are those of the parent's node expanded into two. */
  lemma EdgesAfterSplit(tasks: Tasks, p: Id)
    requires p in tasks && Keyed(tasks) && FreshParts(tasks, p) && Closed(DepsOf(tasks))
    ensures Expands(DepsOf(tasks), DepsOf(SplitTasks(tasks, tasks[p])), p, FirstPart(p), SecondPart(p))
  {
    hide FirstPart, SecondPart, SplitTasks, SplitTaskForRetry, RewriteTask;
    PartIdsDistinct(p, p);
    SplitStores(tasks, p);
    PlannedDependencies(tasks[p]);
    var after := SplitTasks(tasks, tasks[p]);
    var g, g' := DepsOf(tasks), DepsOf(after);
    forall b, d | Edge(g, d, b) ensures d in tasks {
      assert d in g;
    }
    forall a, b
      ensures Edge(g', a, b) <==> ExpandedEdge(g, p, FirstPart(p), SecondPart(p), a, b)
    {
      if b in tasks && b != p {
        RewrittenDependencies(tasks[b], p, a);
      }
    }
  }

  lemma RewrittenDependencies(t: Task, p: Id, x: Id)
    requires t.id !in {p, FirstPart(p), SecondPart(p)}
    ensures x in RewriteTask(t, p).dependsOn <==>
              (x in t.dependsOn && x != p) || (x == SecondPart(p) && p in t.dependsOn)
  {
    hide FirstPart, SecondPart;
    PartIdsDistinct(p, p);
    if p in t.dependsOn {
      ReplaceMembers(t.dependsOn, p, SecondPart(p), x);
    }
  }

  lemma ReplaceMembers(s: seq<Id>, from: Id, to: Id, x: Id)
    requires from in s && from != to
    ensures x in Replace(s, from, to) <==> x == to || (x in s && x != from)
  {
    var r := Replace(s, from, to);
    if x in r {
      var i :| 0 <= i < |r| && r[i] == x;
    }
    if x in s && x != from {
      var i :| 0 <= i < |s| && s[i] == x;
      assert r[i] == x;
    }
    var j :| 0 <= j < |s| && s[j] == from;
    assert r[j] == to;
  }

  /**
   * Splitting `p` keeps the meaning of the graph: other tasks precede each other exactly as before, what had
   * to precede `p` precedes both parts, what `p` had to precede is preceded by the second part, and no cycle
   * appears.
   */
  lemma SplitPreservesPrecedence(tasks: Tasks, p: Id)
    requires p in tasks && Keyed(tasks) && FreshParts(tasks, p) && Closed(DepsOf(tasks))
    ensures SameOrder(DepsOf(tasks), DepsOf(SplitTasks(tasks, tasks[p])), p, FirstPart(p), SecondPart(p))
    ensures Acyclic(DepsOf(tasks)) ==> Acyclic(DepsOf(SplitTasks(tasks, tasks[p])))
  {
    hide FirstPart, SecondPart, SplitTasks, DepsOf, Acyclic, Expands, SameOrder;
    EdgesAfterSplit(tasks, p);
    var g, g' := DepsOf(tasks), DepsOf(SplitTasks(tasks, tasks[p]));
    ExpansionKeepsPrecedence(g, g', p, FirstPart(p), SecondPart(p));
    if Acyclic(g) {
      ExpansionKeepsAcyclic(g, g', p, FirstPart(p), SecondPart(p));
    }
  }
}
