/** The repository mutation pipeline: stages in a fixed order, retries within a stage, compensation of a failed one. */
module MutationPipeline {
  import opened Options
  import opened Sorting

  datatype StageName =
    | WorkspacePrepare | BranchPrepare | ChangeApply | Verification | CommitPrepare | PushPrepare | PrDraftPrepare
    | Finalize

  datatype Stage = Stage(name: StageName, maxAttempts: int, hasCompensation: bool)

  /** How one execution of a stage ends. `NoPayload` is a failed result that lacks its failure record. */
  datatype Outcome = Success | Failure(code: string, retriable: bool) | NoPayload | Exception | Timeout

  /** The n-th execution of the k-th stage, and whether its n-th compensation goes through. */
  datatype World = World(execute: (nat, nat) -> Outcome, compensates: (nat, nat) -> bool)

  datatype Status = Succeeded | Failed | Compensated | Skipped
  datatype Evidence = Evidence(stage: StageName, status: Status, attempt: nat, code: string)

  datatype Result =
    | Passed(evidences: seq<Evidence>)
    | Stopped(at: StageName, evidences: seq<Evidence>)
    | Threw(evidences: seq<Evidence>)

  function Rank(n: StageName): nat {
    match n
    case WorkspacePrepare => 0
    case BranchPrepare => 1
    case ChangeApply => 2
    case Verification => 3
    case CommitPrepare => 4
    case PushPrepare => 5
    case PrDraftPrepare => 6
    case Finalize => 7
  }

  predicate ByRank(a: Stage, b: Stage) {
    Rank(a.name) <= Rank(b.name)
  }

  function InStageOrder(stages: seq<Stage>): (r: seq<Stage>)
    ensures |r| == |stages| && multiset(r) == multiset(stages)
  {
    SortPermutes(ByRank, stages);
    Sort(ByRank, stages)
  }

  // ----- What the evidence of a run looks like -----

  /** The first `n` executions of a stage failed, and each left room for another. */
  predicate Retried(w: World, k: nat, s: Stage, seg: seq<Evidence>, n: nat) {
    && n <= |seg| && (n == 0 || n < s.maxAttempts)
    && forall i | 0 <= i < n :: IsRetry(w, k, s, seg[i], i + 1)
  }

  /** The entry of an execution that failed but may be repeated. */
  predicate IsRetry(w: World, k: nat, s: Stage, e: Evidence, attempt: nat) {
    && w.execute(k, attempt).Failure? && w.execute(k, attempt).retriable
    && e == Evidence(s.name, Skipped, attempt, w.execute(k, attempt).code)
  }

  /** A stage that passed: retries, then one success; nothing at all if it has no attempt to make. */
  predicate StagePassed(w: World, k: nat, s: Stage, seg: seq<Evidence>) {
    if s.maxAttempts <= 0 then seg == []
    else
      var n := |seg| - 1;
      && 0 <= n < s.maxAttempts && Retried(w, k, s, seg, n)
      && seg[n] == Evidence(s.name, Succeeded, n + 1, "") && w.execute(k, n + 1).Success?
  }

  /** The failed entry of an execution, if it is final. */
  function FinalFailure(s: Stage, outcome: Outcome, attempt: nat): Option<Evidence> {
    match outcome
    case Success => None
    case Failure(code, retriable) =>
      if retriable && attempt < s.maxAttempts then None else Some(Evidence(s.name, Failed, attempt, code))
    case NoPayload => Some(Evidence(s.name, Failed, attempt, "STAGE_EXCEPTION"))
    case Exception => Some(Evidence(s.name, Failed, attempt, "STAGE_EXCEPTION"))
    case Timeout => Some(Evidence(s.name, Failed, attempt, "STAGE_TIMEOUT"))
  }

  function CompensatedEntry(s: Stage): Evidence {
    Evidence(s.name, Compensated, 1, "")
  }

  /**
   * What follows the failed entry. A compensation that throws after a reported failure is itself taken for an
   * exception of the stage: a second failed entry, and a second compensation.
   */
  function Aftermath(w: World, k: nat, s: Stage, attempt: nat): seq<Evidence> {
    if !s.hasCompensation then []
    else if w.compensates(k, 1) then [CompensatedEntry(s)]
    else if !w.execute(k, attempt).Failure? then []
    else
      [Evidence(s.name, Failed, attempt, "STAGE_EXCEPTION")] + if w.compensates(k, 2) then [CompensatedEntry(s)] else []
  }

  predicate CompensationThrows(w: World, k: nat, s: Stage, attempt: nat) {
    s.hasCompensation && !w.compensates(k, 1) && (w.execute(k, attempt).Failure? ==> !w.compensates(k, 2))
  }

  /** A stage that stopped the run: retries, one failed entry, its aftermath. */
  predicate StageStopped(w: World, k: nat, s: Stage, seg: seq<Evidence>, attempt: nat) {
    && 1 <= attempt <= s.maxAttempts && Retried(w, k, s, seg, attempt - 1)
    && FinalFailure(s, w.execute(k, attempt), attempt).Some?
    && seg[attempt - 1..] == [FinalFailure(s, w.execute(k, attempt), attempt).value] + Aftermath(w, k, s, attempt)
  }

  /** All stages passed, one after the other. */
  ghost predicate AllPassed(w: World, stages: seq<Stage>, t: seq<Evidence>)
    decreases |stages|
  {
    if stages == [] then t == []
    else
      var k := |stages| - 1;
      exists n: nat :: n <= |t| && AllPassed(w, stages[..k], t[..n]) && StagePassed(w, k, stages[k], t[n..])
  }

  /** All stages before the k-th passed, and the k-th stopped the run at its given attempt. */
  ghost predicate StoppedAt(w: World, stages: seq<Stage>, t: seq<Evidence>, k: nat, attempt: nat) {
    k < |stages| && exists n: nat ::
      n <= |t| && AllPassed(w, stages[..k], t[..n]) && StageStopped(w, k, stages[k], t[n..], attempt)
  }

  class RepoMutationPipeline {
    const world: World

    constructor (world: World)
      ensures this.world == world
    {
      this.world := world;
    }

    /** The n-th compensation of a stage; `threw` if it does not go through. */
    method CompensateIfNeeded(k: nat, s: Stage, n: nat) returns (more: seq<Evidence>, threw: bool)
      ensures threw <==> s.hasCompensation && !world.compensates(k, n)
      ensures more == if s.hasCompensation && !threw then [CompensatedEntry(s)] else []
    {
      more, threw := [], false;
      if !s.hasCompensation {
        return;
      }
      if !world.compensates(k, n) {
        return [], true;
      }
      more := [CompensatedEntry(s)];
    }

    /** The end of a failing stage: its failed entry, the compensation, and the catch block around both. */
    method Fail(k: nat, s: Stage, attempt: nat, failed: Evidence) returns (more: seq<Evidence>, threw: bool)
      requires FinalFailure(s, world.execute(k, attempt), attempt) == Some(failed)
      ensures more == [failed] + Aftermath(world, k, s, attempt)
      ensures threw <==> CompensationThrows(world, k, s, attempt)
    {
      var first, firstThrew := CompensateIfNeeded(k, s, 1);
      more, threw := [failed] + first, firstThrew;
      if firstThrew && world.execute(k, attempt).Failure? {
        var second, secondThrew := CompensateIfNeeded(k, s, 2);
        more := [failed] + ([Evidence(s.name, Failed, attempt, "STAGE_EXCEPTION")] + second);
        threw := secondThrew;
      }
    }

    method Run(stages: seq<Stage>) returns (result: Result)
      ensures var ordered := InStageOrder(stages);
              match result
              case Passed(t) => AllPassed(world, ordered, t)
              case Stopped(at, t) => exists k: nat, attempt: nat ::
                StoppedAt(world, ordered, t, k, attempt) && at == ordered[k].name
                && !CompensationThrows(world, k, ordered[k], attempt)
              case Threw(t) => exists k: nat, attempt: nat ::
                StoppedAt(world, ordered, t, k, attempt) && CompensationThrows(world, k, ordered[k], attempt)
    {
      hide InStageOrder, StoppedAt, CompensationThrows, Aftermath;
      var ordered := InStageOrder(stages);
      var evidences: seq<Evidence> := [];
      for k := 0 to |ordered|
        invariant AllPassed(world, ordered[..k], evidences)
      {
        var seg, attempt, failure, threw := RunStage(k, ordered[k]);
        if failure {
          Stops(world, ordered, evidences, seg, k, attempt);
          evidences := evidences + seg;
          return if threw then Threw(evidences) else Stopped(ordered[k].name, evidences);
        }
        Passes(world, ordered, evidences, seg, k);
        evidences := evidences + seg;
      }
      assert ordered[..|ordered|] == ordered;
      result := Passed(evidences);
    }

    /** The attempts of one stage. */
    method RunStage(k: nat, s: Stage) returns (seg: seq<Evidence>, attempt: nat, failure: bool, threw: bool)
      ensures !failure ==> StagePassed(world, k, s, seg) && !threw
      ensures failure ==>
                StageStopped(world, k, s, seg, attempt) && (threw <==> CompensationThrows(world, k, s, attempt))
    {
      hide CompensationThrows, Aftermath;
      seg, attempt, failure, threw := [], 0, false, false;
      while attempt < s.maxAttempts
        invariant attempt == |seg| && (attempt == 0 || attempt <= s.maxAttempts)
        invariant attempt < s.maxAttempts || s.maxAttempts <= 0
        invariant Retried(world, k, s, seg, attempt)
      {
        attempt := attempt + 1;
        var outcome := world.execute(k, attempt);
        if outcome.Success? {
          MoreThanRetries(world, k, s, seg, [Evidence(s.name, Succeeded, attempt, "")], attempt - 1);
          seg := seg + [Evidence(s.name, Succeeded, attempt, "")];
          return;
        }
        var final := FinalFailure(s, outcome, attempt);
        if final.Some? {
          var more, t := Fail(k, s, attempt, final.value);
          MoreThanRetries(world, k, s, seg, more, attempt - 1);
          seg, failure, threw := seg + more, true, t;
          return;
        }
        OneMoreRetry(world, k, s, seg, attempt - 1);
        seg := seg + [Evidence(s.name, Skipped, attempt, outcome.code)];
      }
    }
  }

  /** What follows the retries of a stage. */
  lemma MoreThanRetries(w: World, k: nat, s: Stage, seg: seq<Evidence>, more: seq<Evidence>, n: nat)
    requires Retried(w, k, s, seg, n) && |seg| == n
    ensures Retried(w, k, s, seg + more, n) && (seg + more)[n..] == more
  {
    forall i | 0 <= i < n ensures (seg + more)[i] == seg[i] && IsRetry(w, k, s, seg[i], i + 1) {
    }
  }

  lemma OneMoreRetry(w: World, k: nat, s: Stage, seg: seq<Evidence>, n: nat)
    requires Retried(w, k, s, seg, n) && |seg| == n && n + 1 < s.maxAttempts
    requires w.execute(k, n + 1).Failure? && w.execute(k, n + 1).retriable
    ensures Retried(w, k, s, seg + [Evidence(s.name, Skipped, n + 1, w.execute(k, n + 1).code)], n + 1)
  {
    var next := seg + [Evidence(s.name, Skipped, n + 1, w.execute(k, n + 1).code)];
    forall i | 0 <= i <= n ensures IsRetry(w, k, s, next[i], i + 1) {
      if i < n { assert next[i] == seg[i]; }
    }
  }

  lemma Passes(w: World, stages: seq<Stage>, t: seq<Evidence>, seg: seq<Evidence>, k: nat)
    requires k < |stages| && AllPassed(w, stages[..k], t) && StagePassed(w, k, stages[k], seg)
    ensures AllPassed(w, stages[..k + 1], t + seg)
  {
    hide StagePassed;
    assert stages[..k + 1][..k] == stages[..k];
    assert (t + seg)[..|t|] == t && (t + seg)[|t|..] == seg;
  }

  lemma Stops(w: World, stages: seq<Stage>, t: seq<Evidence>, seg: seq<Evidence>, k: nat, attempt: nat)
    requires k < |stages| && AllPassed(w, stages[..k], t) && StageStopped(w, k, stages[k], seg, attempt)
    ensures StoppedAt(w, stages, t + seg, k, attempt)
  {
    hide StageStopped, AllPassed;
    assert (t + seg)[..|t|] == t && (t + seg)[|t|..] == seg;
  }

  /**
   * Why a stage stopped, and what it leaves: its execution did not succeed and could not be repeated; the failed entry
   * says how it ended; then a compensation that goes through is noted once, and nothing else but one more failure.
   */
  lemma StopReason(w: World, k: nat, s: Stage, seg: seq<Evidence>, attempt: nat)
    requires StageStopped(w, k, s, seg, attempt)
    ensures var outcome := w.execute(k, attempt);
            && !outcome.Success? && (outcome.Failure? && outcome.retriable ==> attempt == s.maxAttempts)
            && |seg| >= attempt
            && seg[attempt - 1] == Evidence(s.name, Failed, attempt,
                 if outcome.Failure? then outcome.code
                 else if outcome.Timeout? then "STAGE_TIMEOUT"
                 else "STAGE_EXCEPTION")
            && (s.hasCompensation && w.compensates(k, 1) ==> seg[attempt..] == [Evidence(s.name, Compensated, 1, "")])
            && (!s.hasCompensation || (!w.compensates(k, 1) && !outcome.Failure?) ==> seg[attempt..] == [])
            && (s.hasCompensation && !w.compensates(k, 1) && outcome.Failure? ==>
                  seg[attempt..] == [Evidence(s.name, Failed, attempt, "STAGE_EXCEPTION")] +
                    if w.compensates(k, 2) then [Evidence(s.name, Compensated, 1, "")] else [])
  {
    var tail := seg[attempt - 1..];
    assert tail[0] == seg[attempt - 1] && tail[1..] == seg[attempt..];
  }

  // ----- What it means for the whole run -----

  function Successes(t: seq<Evidence>): nat {
    if t == [] then 0 else Successes(t[..|t| - 1]) + if t[|t| - 1].status == Succeeded then 1 else 0
  }

  lemma {:induction false} SuccessesOfBoth(t: seq<Evidence>, u: seq<Evidence>)
    ensures Successes(t + u) == Successes(t) + Successes(u)
    decreases |u|
  {
    if u == [] {
      assert t + u == t;
    } else {
      assert (t + u)[..|t + u| - 1] == t + u[..|u| - 1];
      SuccessesOfBoth(t, u[..|u| - 1]);
    }
  }

  function Attempting(stages: seq<Stage>): nat {
    if stages == [] then 0
    else Attempting(stages[..|stages| - 1]) + if stages[|stages| - 1].maxAttempts > 0 then 1 else 0
  }

  lemma {:induction false} NoSuccessAmongRetries(w: World, k: nat, s: Stage, seg: seq<Evidence>, n: nat)
    requires Retried(w, k, s, seg, n)
    ensures n <= |seg| && Successes(seg[..n]) == 0
    decreases n
  {
    if n > 0 {
      assert seg[..n][..n - 1] == seg[..n - 1];
      NoSuccessAmongRetries(w, k, s, seg, n - 1);
    }
  }

  lemma PassedStageSucceedsOnce(w: World, k: nat, s: Stage, seg: seq<Evidence>)
    requires StagePassed(w, k, s, seg)
    ensures Successes(seg) == if s.maxAttempts > 0 then 1 else 0
  {
    if seg != [] { NoSuccessAmongRetries(w, k, s, seg, |seg| - 1); }
  }

  /** A passed run records one success for each stage that may be attempted, and none for the others. */
  lemma {:induction false} OneSuccessPerStage(w: World, stages: seq<Stage>, t: seq<Evidence>)
    requires AllPassed(w, stages, t)
    ensures Successes(t) == Attempting(stages)
    decreases |stages|
  {
    hide StagePassed;
    if stages != [] {
      var k := |stages| - 1;
      var n: nat :| n <= |t| && AllPassed(w, stages[..k], t[..n]) && StagePassed(w, k, stages[k], t[n..]);
      OneSuccessPerStage(w, stages[..k], t[..n]);
      SuccessesOfBoth(t[..n], t[n..]);
      assert t == t[..n] + t[n..];
      PassedStageSucceedsOnce(w, k, stages[k], t[n..]);
    }
  }

  lemma {:induction false} AttemptingAll(stages: seq<Stage>)
    ensures Attempting(stages) <= |stages|
    ensures Attempting(stages) == |stages| <==> forall s | s in stages :: s.maxAttempts > 0
    decreases |stages|
  {
    if stages != [] {
      var init, last := stages[..|stages| - 1], stages[|stages| - 1];
      AttemptingAll(init);
      assert stages == init + [last];
      assert forall s :: s in stages <==> s in init || s == last;
    }
  }

  /** So a run that reports success has seen every stage succeed exactly when every stage allows an attempt. */
  lemma PassedMeansAllSucceeded(w: World, stages: seq<Stage>, t: seq<Evidence>)
    requires AllPassed(w, stages, t)
    ensures Successes(t) == |stages| <==> forall s | s in stages :: s.maxAttempts > 0
  {
    OneSuccessPerStage(w, stages, t);
    AttemptingAll(stages);
  }

  lemma {:induction false} PrefixAttempts(stages: seq<Stage>, k: nat)
    requires k <= |stages|
    ensures Attempting(stages[..k]) <= k
  {
    AttemptingAll(stages[..k]);
  }

  lemma OneEntry(e: Evidence)
    ensures Successes([e]) == if e.status == Succeeded then 1 else 0
  {
    assert [e][..0] == [];
  }

  lemma NoSuccessInStopped(w: World, k: nat, s: Stage, seg: seq<Evidence>, attempt: nat)
    requires StageStopped(w, k, s, seg, attempt)
    ensures Successes(seg) == 0
  {
    hide Aftermath, Successes, Retried;
    NoSuccessAmongRetries(w, k, s, seg, attempt - 1);
    var failed, rest := FinalFailure(s, w.execute(k, attempt), attempt).value, Aftermath(w, k, s, attempt);
    OneEntry(failed);
    NoSuccessInAftermath(w, k, s, attempt);
    SuccessesOfBoth([failed], rest);
    SuccessesOfBoth(seg[..attempt - 1], [failed] + rest);
    assert seg == seg[..attempt - 1] + seg[attempt - 1..];
  }

  lemma NoSuccessInAftermath(w: World, k: nat, s: Stage, attempt: nat)
    ensures Successes(Aftermath(w, k, s, attempt)) == 0
  {
    var again, done := Evidence(s.name, Failed, attempt, "STAGE_EXCEPTION"), CompensatedEntry(s);
    OneEntry(again);
    OneEntry(done);
    SuccessesOfBoth([again], [done]);
    assert [again] + [] == [again];
  }

  /** A run that is stopped has fewer successes than stages. */
  lemma StoppedMeansNotAllSucceeded(w: World, stages: seq<Stage>, t: seq<Evidence>, k: nat, attempt: nat)
    requires StoppedAt(w, stages, t, k, attempt)
    ensures Successes(t) <= k < |stages|
  {
    hide StageStopped, AllPassed;
    var n: nat :| n <= |t| && AllPassed(w, stages[..k], t[..n]) && StageStopped(w, k, stages[k], t[n..], attempt);
    OneSuccessPerStage(w, stages[..k], t[..n]);
    PrefixAttempts(stages, k);
    NoSuccessInStopped(w, k, stages[k], t[n..], attempt);
    SuccessesOfBoth(t[..n], t[n..]);
    assert t == t[..n] + t[n..];
  }

  /**
   * Of the runs whose stages all allow an attempt, those that report success are those in which every stage succeeded.
   */
  lemma PassedIffAllSucceeded(w: World, stages: seq<Stage>, t: seq<Evidence>)
    requires AllPassed(w, stages, t) || exists k: nat, attempt: nat :: StoppedAt(w, stages, t, k, attempt)
    requires forall s | s in stages :: s.maxAttempts > 0
    ensures AllPassed(w, stages, t) <==> Successes(t) == |stages|
  {
    hide AllPassed, StoppedAt;
    if AllPassed(w, stages, t) {
      PassedMeansAllSucceeded(w, stages, t);
    } else {
      var k: nat, attempt: nat :| StoppedAt(w, stages, t, k, attempt);
      StoppedMeansNotAllSucceeded(w, stages, t, k, attempt);
    }
  }

  /** A stage without attempts is passed over in silence, and the run still reports success. */
  lemma SilentlySkipped(w: World, s: Stage)
    requires s.maxAttempts <= 0
    ensures AllPassed(w, [s], []) && Successes([]) == 0
  {
    assert [s][..0] == [];
    assert AllPassed(w, [s][..0], [][..0]) && StagePassed(w, 0, s, [][0..]);
  }

  predicate StagesInOrder(t: seq<Evidence>) {
    forall i, j | 0 <= i < j < |t| :: Rank(t[i].stage) <= Rank(t[j].stage)
  }

  const STAGE_ORDER := [
    WorkspacePrepare, BranchPrepare, ChangeApply, Verification, CommitPrepare, PushPrepare, PrDraftPrepare, Finalize]

  /** `a` stands in the fixed order at or before `b`. */
  predicate NotAfter(a: StageName, b: StageName) {
    exists i, j | 0 <= i <= j < |STAGE_ORDER| :: STAGE_ORDER[i] == a && STAGE_ORDER[j] == b
  }

  lemma RankFollowsOrder(a: StageName, b: StageName)
    ensures NotAfter(a, b) <==> Rank(a) <= Rank(b)
  {
    assert forall n: StageName :: STAGE_ORDER[Rank(n)] == n;
    assert forall i | 0 <= i < |STAGE_ORDER| :: Rank(STAGE_ORDER[i]) == i;
  }

  predicate FollowsOrder(t: seq<Evidence>) {
    forall i, j | 0 <= i < j < |t| :: NotAfter(t[i].stage, t[j].stage)
  }

  lemma InOrderFollows(t: seq<Evidence>)
    requires StagesInOrder(t)
    ensures FollowsOrder(t)
  {
    hide Rank, NotAfter;
    forall i, j | 0 <= i < j < |t| ensures NotAfter(t[i].stage, t[j].stage) {
      RankFollowsOrder(t[i].stage, t[j].stage);
    }
  }

  predicate AllAt(t: seq<Evidence>, name: StageName) {
    forall i | 0 <= i < |t| :: t[i].stage == name
  }

  predicate NoneAfter(t: seq<Evidence>, rank: nat) {
    forall i | 0 <= i < |t| :: Rank(t[i].stage) <= rank
  }

  lemma JoinInOrder(t: seq<Evidence>, u: seq<Evidence>, name: StageName)
    requires StagesInOrder(t) && NoneAfter(t, Rank(name)) && AllAt(u, name)
    ensures StagesInOrder(t + u) && NoneAfter(t + u, Rank(name))
  {
    hide Rank;
    var v := t + u;
    forall i | 0 <= i < |v| ensures Rank(v[i].stage) <= Rank(name) && (i >= |t| ==> v[i].stage == name) {
      assert if i < |t| then v[i] == t[i] else v[i] == u[i - |t|];
    }
    forall i, j | 0 <= i < j < |v| ensures Rank(v[i].stage) <= Rank(v[j].stage) {
      if j < |t| { assert v[i] == t[i] && v[j] == t[j]; }
    }
  }

  lemma PassedStageIsNamed(w: World, k: nat, s: Stage, seg: seq<Evidence>)
    requires StagePassed(w, k, s, seg)
    ensures AllAt(seg, s.name)
  {
  }

  /** The evidence follows the stage order. */
  lemma {:induction false} EvidenceInOrder(w: World, stages: seq<Stage>, t: seq<Evidence>)
    requires Sorted(ByRank, stages) && AllPassed(w, stages, t)
    ensures StagesInOrder(t)
    ensures stages != [] ==> NoneAfter(t, Rank(stages[|stages| - 1].name))
    decreases |stages|
  {
    hide StagePassed, Rank, StagesInOrder, AllAt;
    if stages == [] {
      assert StagesInOrder([]) by { NothingInOrder(); }
    } else {
      var k := |stages| - 1;
      var n: nat :| n <= |t| && AllPassed(w, stages[..k], t[..n]) && StagePassed(w, k, stages[k], t[n..]);
      EvidenceInOrder(w, stages[..k], t[..n]);
      assert NoneAfter(t[..n], Rank(stages[k].name)) by {
        if k > 0 { assert ByRank(stages[k - 1], stages[k]); } else { assert t[..n] == []; }
      }
      PassedStageIsNamed(w, k, stages[k], t[n..]);
      JoinInOrder(t[..n], t[n..], stages[k].name);
      assert t == t[..n] + t[n..];
    }
  }

  lemma NothingInOrder()
    ensures StagesInOrder([])
  {
  }

  lemma StoppedStageIsNamed(w: World, k: nat, s: Stage, seg: seq<Evidence>, attempt: nat)
    requires StageStopped(w, k, s, seg, attempt)
    ensures AllAt(seg, s.name)
  {
    var tail := seg[attempt - 1..];
    forall i | 0 <= i < |seg| ensures seg[i].stage == s.name {
      assert i >= attempt - 1 ==> seg[i] == tail[i - (attempt - 1)];
    }
  }

  lemma ByRankSorts(stages: seq<Stage>)
    ensures Sorted(ByRank, InStageOrder(stages))
  {
    hide Rank;
    assert Preorder(ByRank);
    SortSorts(ByRank, stages);
  }

  /** In whatever order the stages are given, the evidence of a run follows the fixed order, stopped or not. */
  lemma RunFollowsStageOrder(w: World, stages: seq<Stage>, t: seq<Evidence>)
    requires AllPassed(w, InStageOrder(stages), t) ||
               exists k: nat, attempt: nat :: StoppedAt(w, InStageOrder(stages), t, k, attempt)
    ensures FollowsOrder(t)
  {
    hide InStageOrder, AllPassed, StageStopped, Rank, StagesInOrder, FollowsOrder;
    var ordered := InStageOrder(stages);
    ByRankSorts(stages);
    if AllPassed(w, ordered, t) {
      EvidenceInOrder(w, ordered, t);
    } else {
      var k: nat, attempt: nat :| StoppedAt(w, ordered, t, k, attempt);
      var n: nat :| n <= |t| && AllPassed(w, ordered[..k], t[..n]) && StageStopped(w, k, ordered[k], t[n..], attempt);
      EvidenceInOrder(w, ordered[..k], t[..n]);
      StoppedStageIsNamed(w, k, ordered[k], t[n..], attempt);
      assert NoneAfter(t[..n], Rank(ordered[k].name)) by {
        if k > 0 {
          assert ByRank(ordered[k - 1], ordered[k]);
          assert ordered[..k][k - 1] == ordered[k - 1];
        } else {
          NothingPassed(w, ordered[..k], t[..n]);
        }
      }
      JoinInOrder(t[..n], t[n..], ordered[k].name);
      assert t == t[..n] + t[n..];
    }
    InOrderFollows(t);
  }

  lemma NothingPassed(w: World, stages: seq<Stage>, t: seq<Evidence>)
    requires AllPassed(w, stages, t) && stages == []
    ensures t == []
  {
  }
}
