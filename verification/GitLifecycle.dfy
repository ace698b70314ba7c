/** Committing, pushing and opening a draft pull request at the end of a run, each behind its guards. */
module GitLifecycle {
  import opened Options
  import opened Sorting
  import CJ = CanonicalJson
  import Dedup
  import IK = IdempotencyKey

  datatype Action =
    | GitPush | PrDraft | DbMigration | FileDelete | ApiBreakingChange | DependencyBump
    | SecurityAuthChange | ProductionConfigChange | BulkFileChange

  datatype ApprovalStatus = Pending | Approved | Rejected | Resumed | Completed
  datatype Approval = Approval(runId: string, taskId: string, action: Action, status: ApprovalStatus)

  datatype Effect = Commit | Push | PullRequest

  /** What an executor does when it is called; the built-in ones never throw, injected ones may. */
  datatype Answer = Yes | No | Throws

  datatype Event = PolicyPersisted(effect: Effect) | LeaseChecked | Tried(effect: Effect, answer: Answer)

  /** An effect is done when its executor was called, whatever the answer; a guard may throw before. */
  datatype Performed = Suppressed | Done(answer: Answer) | Interrupted

  datatype Status =
    | SkippedNoChanges | SkippedDuplicate | SkippedCommitFailed | SkippedRejected | SkippedPushNotSuccessful
    | PendingApproval | WaitingResume | Succeeded | Failed

  datatype Result = Ok | ApprovalPending | Threw

  /** The artifacts of a call. */
  datatype Note = CommitNote(commitStatus: Status, pushStatus: Status) | DraftNote(prStatus: Status) | ApprovalNote

  const DEDUP_TTL_MS := 1_800_000

  datatype Input = Input(
    tenantId: string, projectId: string, runId: string, taskId: string, taskTitle: string, branchName: string)

  datatype Config = Config(gateEnabled: bool, required: set<Action>)

  /**
   * What the executors will answer, and which of the guards will throw: the n-th use of each guard. Looking for
   * changes, including the branch name, may throw, and so may reading the risky actions off the commit (`None`).
   */
  datatype World = World(
    hasChanges: Answer, commit: Answer, commitSha: string, riskActions: Option<seq<Action>>, push: Answer,
    draft: Answer,
    policyAllows: nat -> bool, leaseHolds: nat -> bool, writeSucceeds: nat -> bool, clock: nat -> int)

  predicate IsRisk(world: World, action: Action) {
    world.riskActions.Some? && action in world.riskActions.value
  }

  predicate IsOpen(a: Approval, x: Input, action: Action) {
    a.runId == x.runId && a.taskId == x.taskId && a.action == action && a.status != Completed
  }

  /** The status of the first open request, or that of the one which will be created. */
  function GateStatus(approvals: seq<Approval>, x: Input, action: Action): ApprovalStatus {
    if approvals == [] then Pending
    else if IsOpen(approvals[0], x, action) then approvals[0].status
    else GateStatus(approvals[1..], x, action)
  }

  /** There is an open request for the action. */
  ghost predicate Asked(approvals: seq<Approval>, x: Input, action: Action) {
    exists k :: 0 <= k < |approvals| && IsOpen(approvals[k], x, action)
  }

  lemma StillAsked(approvals: seq<Approval>, more: seq<Approval>, x: Input, action: Action)
    requires approvals <= more
    ensures Asked(approvals, x, action) ==> Asked(more, x, action)
  {
    if k :| 0 <= k < |approvals| && IsOpen(approvals[k], x, action) {
      assert more[k] == approvals[k];
    }
  }

  /** The gate of an action lets it pass: it is off, the action needs no approval, or its approval was resumed. */
  predicate Passes(config: Config, approvals: seq<Approval>, x: Input, action: Action) {
    !config.gateEnabled || action !in config.required || GateStatus(approvals, x, action) == Resumed
  }

  function StageOf(e: Effect): string {
    match e
    case Commit => "git_commit"
    case Push => "git_push"
    case PullRequest => "pr_draft"
  }

  /** The key under which an effect is deduplicated; `text` says what exactly it would do. */
  function EffectKey(
    le: (string, string) -> bool, sha: string -> string, x: Input, e: Effect, text: string): IK.Result<string>
  {
    IK.BuildIdempotencyKey(le, sha,
      IK.KeyInput(x.tenantId, x.projectId, x.runId, x.taskId, StageOf(e), 0, StageOf(e), CJ.Str(text)))
  }

  lemma StagesDiffer(d: Effect, e: Effect)
    requires d != e
    ensures IK.Trim(StageOf(d)) != IK.Trim(StageOf(e))
  {
    assert IK.Trim(StageOf(d)) == StageOf(d) && IK.Trim(StageOf(e)) == StageOf(e);
    assert |StageOf(Commit)| == 10 && StageOf(Push)[0] == 'g' && StageOf(PullRequest)[0] == 'p';
  }

  /**
   * Different effects never share a key, in whatever runs; the same effect with a different text does so only if the
   * digests of the two texts collide.
   */
  lemma KeysSeparateEffects(le: (string, string) -> bool, sha: string -> string,
                            x: Input, d: Effect, s: string, y: Input, e: Effect, t: string)
    requires TotalOrder(le) && IK.IsDigest(sha) && (d != e || s != t)
    requires EffectKey(le, sha, x, d, s).Ok? && EffectKey(le, sha, y, e, t).Ok?
    ensures EffectKey(le, sha, x, d, s) == EffectKey(le, sha, y, e, t) ==>
              d == e && IK.Collide(sha, CJ.Canonicalize(le, CJ.Str(s)), CJ.Canonicalize(le, CJ.Str(t)))
  {
    hide TotalOrder, IK.IsDigest, IK.BuildIdempotencyKey, IK.Trim, IK.Collide, CJ.Canonicalize, StageOf;
    IK.KeysAgree(le, sha,
      IK.KeyInput(x.tenantId, x.projectId, x.runId, x.taskId, StageOf(d), 0, StageOf(d), CJ.Str(s)),
      IK.KeyInput(y.tenantId, y.projectId, y.runId, y.taskId, StageOf(e), 0, StageOf(e), CJ.Str(t)));
    if d != e { StagesDiffer(d, e); }
  }

  /** What exactly each effect would do. */
  function TextOf(e: Effect, x: Input, commitSha: string): string {
    match e
    case Commit => "feat(" + x.taskId + "): " + x.taskTitle + " [run:" + x.runId + "]" + "|" + x.branchName
    case Push => x.branchName + "|" + commitSha
    case PullRequest => x.branchName + "|" + ("[" + x.taskId + "] " + x.taskTitle)
  }

  lemma EqualKeysEqualStages(le: (string, string) -> bool, sha: string -> string,
                             x: Input, d: Effect, s: string, e: Effect, t: string)
    requires EffectKey(le, sha, x, d, s).Ok? && EffectKey(le, sha, x, e, t).Ok?
    requires EffectKey(le, sha, x, d, s) == EffectKey(le, sha, x, e, t)
    ensures IK.Trim(StageOf(d)) == IK.Trim(StageOf(e))
  {
    hide IK.Trim, IK.Join, CJ.Canonicalize, StageOf, IK.Digits;
    var a := IK.KeyInput(x.tenantId, x.projectId, x.runId, x.taskId, StageOf(d), 0, StageOf(d), CJ.Str(s));
    var b := IK.KeyInput(x.tenantId, x.projectId, x.runId, x.taskId, StageOf(e), 0, StageOf(e), CJ.Str(t));
    IK.PartsHaveNoColon(le, sha, a);
    IK.PartsHaveNoColon(le, sha, b);
    IK.JoinIsInjective(IK.KeyParts(le, sha, a).value, IK.KeyParts(le, sha, b).value);
    assert IK.KeyParts(le, sha, a).value[4] == IK.KeyParts(le, sha, b).value[4];
  }

  /** The effects of one call never share a key, whatever the digests. */
  lemma EffectsHaveOwnKeys(le: (string, string) -> bool, sha: string -> string,
                           x: Input, d: Effect, s: string, e: Effect, t: string)
    requires d != e && EffectKey(le, sha, x, d, s).Ok?
    ensures EffectKey(le, sha, x, d, s) != EffectKey(le, sha, x, e, t)
  {
    hide IK.Trim, EffectKey, StageOf;
    StagesDiffer(d, e);
    if EffectKey(le, sha, x, d, s) == EffectKey(le, sha, x, e, t) {
      EqualKeysEqualStages(le, sha, x, d, s, e, t);
    }
  }

  // ----- What the registry remembers -----

  /** The entry of an effect reserved at instant `at`: it holds for half an hour. */
  predicate Entered(reg: Dedup.Registry, key: string, owner: string, at: int, status: Dedup.Status) {
    key in reg && reg[key].leaseOwner == owner && reg[key].expiresAt == at + 30 * 60 * 1000 && reg[key].status == status
  }

  function StatusFor(outcome: Performed): Dedup.Status {
    match outcome
    case Done(Yes) => Dedup.Succeeded
    case Done(No) => Dedup.Failed
    case _ => Dedup.Pending
  }

  /** A blocked key suppresses the effect; otherwise the entry says what became of it. */
  predicate Registered(before: Dedup.Registry, after: Dedup.Registry, key: string, owner: string, at: int,
                       outcome: Performed) {
    if Dedup.Blocks(before, key, at) then outcome == Suppressed && after == before
    else outcome != Suppressed && Entered(after, key, owner, at, StatusFor(outcome))
  }

  /** A reported status is the one registered under the key of the effect, and a duplicate is one that was blocked. */
  predicate Remembered(before: Dedup.Registry, after: Dedup.Registry, key: IK.Result<string>, owner: string, at: int,
                       s: Status) {
    WasAttempted(s) ==>
      && key.Ok?
      && (s == SkippedDuplicate <==> Dedup.Blocks(before, key.value, at))
      && (s == Succeeded ==> Entered(after, key.value, owner, at, Dedup.Succeeded))
      && (s == Failed ==> Entered(after, key.value, owner, at, Dedup.Failed))
  }

  /** An effect that succeeded is blocked for half an hour, one that failed is not. */
  lemma RememberedBlocks(before: Dedup.Registry, after: Dedup.Registry, key: IK.Result<string>, owner: string, at: int,
                         s: Status, later: int)
    requires Remembered(before, after, key, owner, at, s) && (s == Succeeded || s == Failed)
    ensures key.Ok? && (Dedup.Blocks(after, key.value, later) <==> s == Succeeded && later < at + 30 * 60 * 1000)
  {
  }

  /** What happens under other keys does not matter. */
  lemma RememberedElsewhere(before: Dedup.Registry, before': Dedup.Registry, after: Dedup.Registry,
                            after': Dedup.Registry, key: IK.Result<string>, owner: string, at: int, s: Status)
    requires Remembered(before, after, key, owner, at, s)
    requires key.Ok? ==> SameAt(before, before', key.value) && SameAt(after, after', key.value)
    ensures Remembered(before', after', key, owner, at, s)
  {
  }

  predicate SameAt(a: Dedup.Registry, b: Dedup.Registry, key: string) {
    (key in a <==> key in b) && (key in a ==> a[key] == b[key])
  }

  /** No guard and no executor throws, and every effect gets a key. */
  ghost predicate Smooth(world: World, le: (string, string) -> bool, sha: string -> string, x: Input) {
    && (forall n :: world.policyAllows(n) && world.leaseHolds(n) && world.writeSucceeds(n))
    && world.hasChanges != Throws && world.commit != Throws && world.push != Throws && world.draft != Throws
    && world.riskActions.Some? && forall e :: EffectKey(le, sha, x, e, TextOf(e, x, world.commitSha)).Ok?
  }

  // ----- What a trace must satisfy -----

  predicate TryIsGuarded(t: seq<Event>) {
    forall i | 0 <= i < |t| && t[i].Tried? ::
      i >= 2 && t[i - 1] == LeaseChecked && t[i - 2] == PolicyPersisted(t[i].effect)
  }

  /** `second` is tried only after `first` succeeded. */
  predicate OnlyAfter(t: seq<Event>, first: Effect, second: Effect) {
    forall i | 0 <= i < |t| && t[i].Tried? && t[i].effect == second :: Tried(first, Yes) in t[..i]
  }

  predicate AtMostOnce(t: seq<Event>) {
    forall i, j | 0 <= i < j < |t| && t[i].Tried? && t[j].Tried? :: t[i].effect != t[j].effect
  }

  predicate IsTried(t: seq<Event>, e: Effect) {
    exists answer :: Tried(e, answer) in t
  }

  predicate Lawful(t: seq<Event>) {
    TryIsGuarded(t) && OnlyAfter(t, Commit, Push) && OnlyAfter(t, Push, PullRequest) && AtMostOnce(t)
  }

  /** What one guarded effect adds to the trace, whether or not a guard interrupts it. */
  predicate IsAttempt(more: seq<Event>, e: Effect, outcome: Performed) {
    match outcome
    case Suppressed => more == []
    case Done(answer) => more == [PolicyPersisted(e), LeaseChecked, Tried(e, answer)]
    case Interrupted => more == [] || more == [PolicyPersisted(e)]
  }

  lemma OnlyAfterNext(t: seq<Event>, ev: Event, first: Effect, second: Effect)
    requires OnlyAfter(t, first, second)
    requires ev.Tried? && ev.effect == second ==> Tried(first, Yes) in t
    ensures OnlyAfter(t + [ev], first, second)
  {
    var u := t + [ev];
    forall i | 0 <= i < |u| && u[i].Tried? && u[i].effect == second ensures Tried(first, Yes) in u[..i] {
      assert u[..i] == t[..i];
      assert i == |t| ==> t[..i] == t;
    }
  }

  /** An event that may come next. */
  predicate MayFollow(t: seq<Event>, ev: Event) {
    ev.Tried? ==>
      && |t| >= 2 && t[|t| - 1] == LeaseChecked && t[|t| - 2] == PolicyPersisted(ev.effect)
      && !IsTried(t, ev.effect)
      && (ev.effect == Push ==> Tried(Commit, Yes) in t)
      && (ev.effect == PullRequest ==> Tried(Push, Yes) in t)
  }

  lemma AtMostOnceNext(t: seq<Event>, ev: Event)
    requires AtMostOnce(t) && (ev.Tried? ==> !IsTried(t, ev.effect))
    ensures AtMostOnce(t + [ev])
  {
    var u := t + [ev];
    forall i, j | 0 <= i < j < |u| && u[i].Tried? && u[j].Tried? ensures u[i].effect != u[j].effect {
      if j == |t| { assert t[i] == Tried(t[i].effect, t[i].answer); }
    }
  }

  lemma GuardedNext(t: seq<Event>, ev: Event)
    requires TryIsGuarded(t) && MayFollow(t, ev)
    ensures TryIsGuarded(t + [ev])
  {
    hide IsTried;
  }

  lemma NextIsLawful(t: seq<Event>, ev: Event)
    requires Lawful(t) && MayFollow(t, ev)
    ensures Lawful(t + [ev])
  {
    hide OnlyAfter, AtMostOnce, TryIsGuarded, IsTried;
    OnlyAfterNext(t, ev, Commit, Push);
    OnlyAfterNext(t, ev, Push, PullRequest);
    AtMostOnceNext(t, ev);
    GuardedNext(t, ev);
  }

  lemma AttemptIsLawful(t: seq<Event>, more: seq<Event>, e: Effect, outcome: Performed)
    requires Lawful(t) && IsAttempt(more, e, outcome) && !IsTried(t, e)
    requires e == Push ==> Tried(Commit, Yes) in t
    requires e == PullRequest ==> Tried(Push, Yes) in t
    ensures Lawful(t + more)
  {
    hide Lawful;
    if more == [] {
      assert t + more == t;
    } else {
      var t1 := t + [PolicyPersisted(e)];
      NextIsLawful(t, PolicyPersisted(e));
      if outcome.Done? {
        var t2 := t1 + [LeaseChecked];
        NextIsLawful(t1, LeaseChecked);
        NextIsLawful(t2, Tried(e, outcome.answer));
        assert t2 + [Tried(e, outcome.answer)] == t + more;
      } else {
        assert t1 == t + more;
      }
    }
  }

  lemma AttemptTries(t: seq<Event>, more: seq<Event>, e: Effect, outcome: Performed)
    requires IsAttempt(more, e, outcome)
    ensures forall d, b :: Tried(d, b) in t + more <==> Tried(d, b) in t || (d == e && outcome == Done(b))
  {
    forall d, b ensures Tried(d, b) in t + more <==> Tried(d, b) in t || (d == e && outcome == Done(b)) {
      assert Tried(d, b) in t + more <==> Tried(d, b) in t || Tried(d, b) in more;
      if outcome.Done? { assert more[2] == Tried(e, outcome.answer); }
    }
  }

  // ----- Gates -----

  lemma {:induction false} RequestKeepsGates(approvals: seq<Approval>, x: Input, requested: Action, action: Action)
    requires forall a | a in approvals :: !IsOpen(a, x, requested)
    ensures GateStatus(approvals + [Approval(x.runId, x.taskId, requested, Pending)], x, action)
         == GateStatus(approvals, x, action)
  {
    var more := approvals + [Approval(x.runId, x.taskId, requested, Pending)];
    if approvals != [] {
      assert more[0] == approvals[0] && more[1..] == approvals[1..] + [Approval(x.runId, x.taskId, requested, Pending)];
      RequestKeepsGates(approvals[1..], x, requested, action);
    } else {
      assert more[1..] == [];
    }
  }

  lemma {:induction false} GateStatusAt(approvals: seq<Approval>, x: Input, action: Action, k: nat)
    requires k <= |approvals| && forall i | 0 <= i < k :: !IsOpen(approvals[i], x, action)
    ensures GateStatus(approvals, x, action) == GateStatus(approvals[k..], x, action)
  {
    if k > 0 {
      GateStatusAt(approvals[1..], x, action, k - 1);
      assert approvals[1..][k - 1..] == approvals[k..];
    }
  }

  class GitLifecycleCoordinator {
    const config: Config
    const world: World
    const le: (string, string) -> bool
    const sha: string -> string
    const registry: Dedup.InMemoryDedupRegistryPort
    var approvals: seq<Approval>
    var trace: seq<Event>
    var notes: seq<Note>
    var policyCalls: nat
    var leaseCalls: nat
    var writes: nat
    var ticks: nat
    ghost var reservedKeys: set<string>

    function KeyOf(x: Input, e: Effect): IK.Result<string> {
      EffectKey(le, sha, x, e, TextOf(e, x, world.commitSha))
    }

    constructor (config: Config, world: World, le: (string, string) -> bool, sha: string -> string,
                 registry: Dedup.InMemoryDedupRegistryPort, approvals: seq<Approval>)
      ensures this.config == config && this.world == world && this.registry == registry && this.approvals == approvals
      ensures this.le == le && this.sha == sha && trace == [] && reservedKeys == {} && ticks == 0
    {
      this.config, this.world, this.le, this.sha := config, world, le, sha;
      this.registry, this.approvals := registry, approvals;
      trace, notes, policyCalls, leaseCalls, writes, ticks, reservedKeys := [], [], 0, 0, 0, 0, {};
    }

    /** Finds the open request of an action, or creates one; the event it records is one of the guarded writes. */
    method EvaluateApprovalGate(x: Input, action: Action) returns (status: Option<ApprovalStatus>)
      modifies this`approvals, this`writes
      ensures status.Some? ==> status.value == GateStatus(old(approvals), x, action)
      ensures approvals == old(approvals) +
                if Asked(old(approvals), x, action) then [] else [Approval(x.runId, x.taskId, action, Pending)]
      ensures Asked(approvals, x, action)
      ensures SameGates(old(approvals), approvals, x)
      ensures (forall n :: world.writeSucceeds(n)) ==> status.Some?
    {
      for k := 0 to |approvals|
        invariant approvals == old(approvals)
        invariant forall i | 0 <= i < k :: !IsOpen(approvals[i], x, action)
      {
        if IsOpen(approvals[k], x, action) {
          GateStatusAt(approvals, x, action, k);
          assert approvals[k..][0] == approvals[k];
          return Some(approvals[k].status);
        }
      }
      GateStatusAt(approvals, x, action, |approvals|);
      forall a
        ensures GateStatus(approvals + [Approval(x.runId, x.taskId, action, Pending)], x, a)
             == GateStatus(approvals, x, a)
      {
        RequestKeepsGates(approvals, x, action, a);
      }
      approvals := approvals + [Approval(x.runId, x.taskId, action, Pending)];
      assert IsOpen(approvals[|approvals| - 1], x, action);
      var written := Write();
      status := if written then Some(Pending) else None;
    }

    /** A write to the state store, which may throw. */
    method Write() returns (ok: bool)
      modifies this`writes
      ensures ok == world.writeSucceeds(old(writes)) && writes == old(writes) + 1
    {
      ok := world.writeSucceeds(writes);
      writes := writes + 1;
    }

    /** Records an artifact. */
    method RecordNote(note: Note) returns (ok: bool)
      modifies this`writes, this`notes
      ensures ok == world.writeSucceeds(old(writes)) && writes == old(writes) + 1
      ensures notes == if ok then old(notes) + [note] else old(notes)
    {
      ok := Write();
      if ok {
        notes := notes + [note];
      }
    }

    method Now() returns (now: int)
      modifies this`ticks
      ensures now == world.clock(old(ticks)) && ticks == old(ticks) + 1
    {
      now := world.clock(ticks);
      ticks := ticks + 1;
    }

    /** The persisted decision, the lease check and the executor itself. */
    method Attempt(e: Effect, answer: Answer) returns (outcome: Performed)
      modifies this`trace, this`policyCalls, this`leaseCalls
      ensures var allowed := world.policyAllows(old(policyCalls));
              && outcome == (if allowed && world.leaseHolds(old(leaseCalls)) then Done(answer) else Interrupted)
              && policyCalls == old(policyCalls) + 1
              && leaseCalls == old(leaseCalls) + if allowed then 1 else 0
      ensures exists more :: IsAttempt(more, e, outcome) && trace == old(trace) + more
    {
      var allowed := world.policyAllows(policyCalls);
      policyCalls := policyCalls + 1;
      if !allowed {
        assert IsAttempt([], e, Interrupted) && trace == old(trace) + [];
        return Interrupted;
      }
      trace := trace + [PolicyPersisted(e)];
      var held := world.leaseHolds(leaseCalls);
      leaseCalls := leaseCalls + 1;
      if !held {
        assert IsAttempt([PolicyPersisted(e)], e, Interrupted);
        return Interrupted;
      }
      trace := trace + [LeaseChecked];
      trace := trace + [Tried(e, answer)];
      outcome := Done(answer);
      assert IsAttempt([PolicyPersisted(e), LeaseChecked, Tried(e, answer)], e, outcome);
      assert trace == old(trace) + [PolicyPersisted(e), LeaseChecked, Tried(e, answer)];
    }

    /**
     * One side effect: reserved, attempted, finalized; a throw, of a guard or of the executor itself, leaves the
     * reservation pending.
     */
    method Perform(e: Effect, key: string, owner: string, answer: Answer) returns (outcome: Performed)
      modifies this`trace, this`policyCalls, this`leaseCalls, this`ticks, this`reservedKeys, registry
      ensures exists more :: IsAttempt(more, e, outcome) && trace == old(trace) + more
      ensures outcome.Done? ==> outcome.answer == answer
      ensures Registered(old(registry.registry), registry.registry, key, owner, world.clock(old(ticks)), outcome)
      ensures reservedKeys == if outcome.Suppressed? then old(reservedKeys) else old(reservedKeys) + {key}
      ensures StatusOf(outcome).Some? && outcome.Done? ==> ticks == old(ticks) + 2
      ensures outcome == Interrupted ==>
                !(world.policyAllows(old(policyCalls)) && world.leaseHolds(old(leaseCalls)))
      ensures SameExcept(old(registry.registry), registry.registry, key)
    {
      hide IsAttempt;
      var now := Now();
      var reserved, entry := registry.ReserveDedupEntry(key, owner, now, DEDUP_TTL_MS);
      if !reserved {
        SuppressedAddsNothing(e);
        assert trace == old(trace) + [];
        return Suppressed;
      }
      reservedKeys := reservedKeys + {key};
      outcome := Attempt(e, answer);
      if outcome.Interrupted? || answer == Throws {
        return;
      }
      now := Now();
      var _ := registry.FinalizeDedupEntry(key, now, answer == Yes, None, None);
    }

    /** An effect under its key, with what it leaves in the trace and the registry. */
    method Effectuate(x: Input, e: Effect, text: string, answer: Answer) returns (outcome: Performed)
      requires text == TextOf(e, x, world.commitSha)
      requires Lawful(trace) && !IsTried(trace, e) && AllFinal(registry.registry, reservedKeys)
      requires e == Push ==> Tried(Commit, Yes) in trace
      requires e == PullRequest ==> Tried(Push, Yes) in trace
      modifies this`trace, this`policyCalls, this`leaseCalls, this`ticks, this`reservedKeys, registry
      ensures Lawful(trace) && SameTries(old(trace), trace, e)
      ensures outcome.Done? ==> outcome.answer == answer
      ensures forall b :: Tried(e, b) in trace <==> outcome == Done(b)
      ensures StatusOf(outcome).Some? ==> AllFinal(registry.registry, reservedKeys)
      ensures SameOutside(old(registry.registry), registry.registry, reservedKeys) && old(reservedKeys) <= reservedKeys
      ensures KeptElsewhere(old(registry.registry), registry.registry, x, e)
      ensures StatusOf(outcome).Some? ==>
                Remembered(old(registry.registry), registry.registry, KeyOf(x, e), x.runId, world.clock(old(ticks)),
                           StatusOf(outcome).value)
      ensures StatusOf(outcome).Some? && outcome.Done? ==> ticks == old(ticks) + 2
      ensures Smooth(world, le, sha, x) && answer != Throws ==> StatusOf(outcome).Some?
    {
      hide Lawful, IsAttempt, EffectKey, TextOf;
      var built := EffectKey(le, sha, x, e, text);
      if built.Error? {
        return Interrupted;
      }
      ghost var before := registry.registry;
      outcome := Perform(e, built.value, x.runId, answer);
      ghost var more :| IsAttempt(more, e, outcome) && trace == old(trace) + more;
      AttemptIsLawful(old(trace), more, e, outcome);
      AttemptTries(old(trace), more, e, outcome);
      ExceptIsElsewhere(before, registry.registry, x, e);
    }

    /** The keys of the other effects of the call are not touched. */
    ghost predicate KeptElsewhere(before: Dedup.Registry, after: Dedup.Registry, x: Input, e: Effect) {
      forall d | d != e && KeyOf(x, d).Ok? :: SameAt(before, after, KeyOf(x, d).value)
    }

    lemma ExceptIsElsewhere(before: Dedup.Registry, after: Dedup.Registry, x: Input, e: Effect)
      requires KeyOf(x, e).Ok? && SameExcept(before, after, KeyOf(x, e).value)
      ensures KeptElsewhere(before, after, x, e)
    {
      hide EffectKey, TextOf;
      forall d | d != e && KeyOf(x, d).Ok? ensures SameAt(before, after, KeyOf(x, d).value) {
        EffectsHaveOwnKeys(le, sha, x, d, TextOf(d, x, world.commitSha), e, TextOf(e, x, world.commitSha));
      }
    }

    /** The gate of an action; `None` when recording a new request throws. */
    method Gate(x: Input, action: Action) returns (status: Option<ApprovalStatus>)
      modifies this`approvals, this`writes
      ensures status.Some? ==>
                status.value ==
                  if config.gateEnabled && action in config.required then GateStatus(old(approvals), x, action)
                  else Resumed
      ensures SameGates(old(approvals), approvals, x) && old(approvals) <= approvals
      ensures config.gateEnabled && action in config.required ==> Asked(approvals, x, action)
      ensures (forall n :: world.writeSucceeds(n)) ==> status.Some?
    {
      if !config.gateEnabled || action !in config.required {
        return Some(Resumed);
      }
      status := EvaluateApprovalGate(x, action);
    }

    /** The gates of risky changes: they can only flag that somebody has to look. */
    method RiskGates(x: Input) returns (waiting: Option<bool>)
      modifies this`approvals, this`writes
      ensures SameGates(old(approvals), approvals, x) && old(approvals) <= approvals
      ensures waiting.Some? && config.gateEnabled ==>
                forall a | IsRisk(world, a) && a in config.required :: Asked(approvals, x, a)
      ensures waiting.Some? ==>
                (waiting.value <==> exists a :: IsRisk(world, a) && !Passes(config, old(approvals), x, a))
      ensures world.riskActions.Some? && (forall n :: world.writeSucceeds(n)) ==> waiting.Some?
    {
      hide GateStatus, Asked;
      if !config.gateEnabled {
        return Some(false);
      }
      if world.riskActions.None? {
        return None;
      }
      var actions := world.riskActions.value;
      var flagged := false;
      for k := 0 to |actions|
        invariant SameGates(old(approvals), approvals, x) && old(approvals) <= approvals
        invariant forall i | 0 <= i < k && actions[i] in config.required :: Asked(approvals, x, actions[i])
        invariant flagged <==> exists i :: 0 <= i < k && !Passes(config, old(approvals), x, actions[i])
      {
        var action := actions[k];
        if action in config.required {
          ghost var before := approvals;
          var status := EvaluateApprovalGate(x, action);
          forall i | 0 <= i < k && actions[i] in config.required ensures Asked(approvals, x, actions[i]) {
            StillAsked(before, approvals, x, actions[i]);
          }
          if status.None? {
            return None;
          }
          flagged := flagged || status.value != Resumed;
        }
      }
      waiting := Some(flagged);
    }

    /** Gate, then push; `None` when something throws. */
    method PushPhase(x: Input) returns (status: Option<Status>)
      requires Lawful(trace) && AllFinal(registry.registry, reservedKeys)
      requires Tried(Commit, Yes) in trace && !IsTried(trace, Push)
      modifies this`trace, this`approvals, this`writes, this`policyCalls, this`leaseCalls, this`ticks,
               this`reservedKeys, registry
      ensures Lawful(trace) && SameTries(old(trace), trace, Push) && SameGates(old(approvals), approvals, x)
      ensures old(approvals) <= approvals
      ensures status.Some? && IsWaiting(status.value) ==> Asked(approvals, x, GitPush)
      ensures status == Some(Succeeded) ==> ticks == old(ticks) + 2
      ensures IsTried(trace, Push) ==> Passes(config, old(approvals), x, GitPush)
      ensures status.Some? ==>
                AllFinal(registry.registry, reservedKeys) && StatusOk(trace, Push, world.push, status.value)
      ensures KeptElsewhere(old(registry.registry), registry.registry, x, Push)
      ensures status.Some? ==>
                Remembered(old(registry.registry), registry.registry, KeyOf(x, Push), x.runId, world.clock(old(ticks)),
                           status.value)
      ensures Smooth(world, le, sha, x) ==> status.Some?
      ensures status.Some? ==> GateDecides(config, old(approvals), x, GitPush, status.value)
      ensures SameOutside(old(registry.registry), registry.registry, reservedKeys) && old(reservedKeys) <= reservedKeys
    {
      hide Lawful, GateStatus, EffectKey, Asked;
      var gate := Gate(x, GitPush);
      if gate.None? { return None; }
      if gate.value == Rejected { return Some(SkippedRejected); }
      if gate.value == Pending { return Some(PendingApproval); }
      if gate.value == Approved { return Some(WaitingResume); }
      if gate.value == Completed {
        NeverCompleted(old(approvals), x, GitPush);
      }
      var outcome := Effectuate(x, Push, x.branchName + "|" + world.commitSha, world.push);
      status := StatusOf(outcome);
    }

    method PullRequestPhase(x: Input) returns (status: Option<Status>)
      requires Lawful(trace) && AllFinal(registry.registry, reservedKeys)
      requires Tried(Push, Yes) in trace && !IsTried(trace, PullRequest)
      modifies this`trace, this`approvals, this`writes, this`policyCalls, this`leaseCalls, this`ticks,
               this`reservedKeys, registry
      ensures Lawful(trace) && SameTries(old(trace), trace, PullRequest) && SameGates(old(approvals), approvals, x)
      ensures old(approvals) <= approvals
      ensures status.Some? && IsWaiting(status.value) ==> Asked(approvals, x, PrDraft)
      ensures IsTried(trace, PullRequest) ==> Passes(config, old(approvals), x, PrDraft)
      ensures status.Some? ==>
                AllFinal(registry.registry, reservedKeys) && StatusOk(trace, PullRequest, world.draft, status.value)
      ensures KeptElsewhere(old(registry.registry), registry.registry, x, PullRequest)
      ensures status.Some? ==>
                Remembered(old(registry.registry), registry.registry, KeyOf(x, PullRequest), x.runId,
                           world.clock(old(ticks)),
                           status.value)
      ensures Smooth(world, le, sha, x) ==> status.Some?
      ensures status.Some? ==> GateDecides(config, old(approvals), x, PrDraft, status.value)
      ensures SameOutside(old(registry.registry), registry.registry, reservedKeys) && old(reservedKeys) <= reservedKeys
    {
      hide Lawful, GateStatus, EffectKey, Asked;
      var gate := Gate(x, PrDraft);
      if gate.None? { return None; }
      if gate.value == Rejected { return Some(SkippedRejected); }
      if gate.value == Pending { return Some(PendingApproval); }
      if gate.value == Approved { return Some(WaitingResume); }
      if gate.value == Completed {
        NeverCompleted(old(approvals), x, PrDraft);
      }
      var title := "[" + x.taskId + "] " + x.taskTitle;
      var outcome := Effectuate(x, PullRequest, x.branchName + "|" + title, world.draft);
      status := StatusOf(outcome);
    }

    /** What follows a successful commit: the risk gates and the push. */
    method PushGated(x: Input) returns (status: Option<Status>, waiting: bool)
      requires Lawful(trace) && AllFinal(registry.registry, reservedKeys)
      requires Tried(Commit, Yes) in trace && !IsTried(trace, Push)
      modifies this`trace, this`approvals, this`writes, this`policyCalls, this`leaseCalls, this`ticks,
               this`reservedKeys, registry
      ensures Lawful(trace) && SameTries(old(trace), trace, Push) && SameGates(old(approvals), approvals, x)
      ensures old(approvals) <= approvals
      ensures status.Some? && IsWaiting(status.value) ==> Asked(approvals, x, GitPush)
      ensures IsTried(trace, Push) ==> Passes(config, old(approvals), x, GitPush)
      ensures status.Some? ==>
                AllFinal(registry.registry, reservedKeys) && StatusOk(trace, Push, world.push, status.value)
      ensures status.Some? ==> GateDecides(config, old(approvals), x, GitPush, status.value)
      ensures status.Some? ==>
                (waiting <==> IsWaiting(status.value) ||
                              exists a :: IsRisk(world, a) && !Passes(config, old(approvals), x, a))
      ensures SameOutside(old(registry.registry), registry.registry, reservedKeys) && old(reservedKeys) <= reservedKeys
      ensures KeptElsewhere(old(registry.registry), registry.registry, x, Push)
      ensures status.Some? ==>
                Remembered(old(registry.registry), registry.registry, KeyOf(x, Push), x.runId, world.clock(old(ticks)),
                           status.value)
      ensures status == Some(Succeeded) ==> ticks == old(ticks) + 2
      ensures Smooth(world, le, sha, x) ==> status.Some?
    {
      hide Lawful, GateStatus, GateDecides, Asked, AllFinal, StatusOk, SameOutside, KeptElsewhere, Remembered;
      hide SameTries, IsTried, EffectKey;
      waiting := false;
      ghost var held := registry.registry;
      var risky := RiskGates(x);
      if risky.None? {
        SameAtAll(held, reservedKeys, x, Push);
        return None, false;
      }
      SameGatesDecideAlike(config, old(approvals), approvals, x);
      status := PushPhase(x);
      if status.Some? {
        waiting := risky.value || IsWaiting(status.value);
      }
    }

    lemma SameAtAll(reg: Dedup.Registry, keys: set<string>, x: Input, e: Effect)
      ensures SameOutside(reg, reg, keys) && KeptElsewhere(reg, reg, x, e) && SameTries(trace, trace, e)
    {
      hide EffectKey;
    }

    /** The commit, and behind it the risk gates and the push. */
    method CommitPhase(x: Input) returns (commitStatus: Option<Status>, pushStatus: Status, waiting: bool)
      requires trace == [] && reservedKeys == {}
      modifies this`trace, this`approvals, this`writes, this`policyCalls, this`leaseCalls, this`ticks,
               this`reservedKeys, registry
      ensures Lawful(trace) && !IsTried(trace, PullRequest) && SameGates(old(approvals), approvals, x)
      ensures old(approvals) <= approvals
      ensures commitStatus.Some? && IsWaiting(pushStatus) ==> Asked(approvals, x, GitPush)
      ensures IsTried(trace, Push) ==> Passes(config, old(approvals), x, GitPush)
      ensures commitStatus.Some? ==> AllFinal(registry.registry, reservedKeys)
      ensures commitStatus.Some? ==>
                CommitOutcome(config, world, old(approvals), x, trace, commitStatus.value, pushStatus, waiting)
      ensures SameOutside(old(registry.registry), registry.registry, reservedKeys)
      ensures commitStatus.Some? ==>
                BothRemembered(old(registry.registry), registry.registry, x, old(ticks), commitStatus.value, pushStatus)
      ensures commitStatus == Some(Succeeded) && pushStatus == Succeeded ==> ticks == old(ticks) + 4
      ensures Smooth(world, le, sha, x) ==> commitStatus.Some?
    {
      hide Lawful, GateStatus, GateDecides, Asked, Passes, Remembered, EffectKey, TextOf, AllFinal, SameOutside;
      hide KeptElsewhere, BothRemembered, IsTried, SameTries, SameGates;
      pushStatus, waiting := SkippedNoChanges, false;
      ghost var reg0, t0 := registry.registry, trace;
      CommitMayStart(reg0, x);
      if world.hasChanges == Throws {
        return None, SkippedNoChanges, false;
      }
      if world.hasChanges == No {
        return Some(SkippedNoChanges), SkippedNoChanges, false;
      }
      var message := "feat(" + x.taskId + "): " + x.taskTitle + " [run:" + x.runId + "]";
      CommitText(x);
      var outcome := Effectuate(x, Commit, message + "|" + x.branchName, world.commit);
      commitStatus := StatusOf(outcome);
      ghost var reg1, t1 := registry.registry, trace;
      CommitDone(t1, outcome);
      if commitStatus.None? {
        return;
      }
      if outcome != Done(Yes) {
        pushStatus := if outcome.Suppressed? then SkippedDuplicate else SkippedCommitFailed;
        OnlyCommit(reg0, reg1, x, old(ticks), commitStatus.value, pushStatus);
        return;
      }
      var pushed, flagged := PushGated(x);
      PushedAfter(t1, trace);
      OutsideBoth(reg0, reg1, registry.registry, reservedKeys);
      if pushed.None? {
        return None, pushStatus, waiting;
      }
      pushStatus, waiting := pushed.value, flagged;
      BothAfter(reg0, reg1, registry.registry, x, old(ticks), pushStatus);
    }

    /** What the registry says of the three effects, each as far as the ones before it succeeded. */
    predicate AllRemembered(before: Dedup.Registry, after: Dedup.Registry, x: Input, start: nat,
                            commitStatus: Status, pushStatus: Status, prStatus: Status) {
      && Remembered(before, after, KeyOf(x, Commit), x.runId, world.clock(start), commitStatus)
      && (commitStatus == Succeeded ==>
            Remembered(before, after, KeyOf(x, Push), x.runId, world.clock(start + 2), pushStatus))
      && (commitStatus == Succeeded && pushStatus == Succeeded ==>
            Remembered(before, after, KeyOf(x, PullRequest), x.runId, world.clock(start + 4), prStatus))
    }

    lemma RememberAll(reg0: Dedup.Registry, reg1: Dedup.Registry, reg2: Dedup.Registry, x: Input, start: nat,
                      commitStatus: Status, pushStatus: Status, prStatus: Status)
      requires BothRemembered(reg0, reg1, x, start, commitStatus, pushStatus)
      requires if commitStatus == Succeeded && pushStatus == Succeeded then
                 && Remembered(reg1, reg2, KeyOf(x, PullRequest), x.runId, world.clock(start + 4), prStatus)
                 && KeptElsewhere(reg1, reg2, x, PullRequest)
               else reg2 == reg1
      ensures AllRemembered(reg0, reg2, x, start, commitStatus, pushStatus, prStatus)
    {
      hide Remembered, EffectKey, TextOf;
      if commitStatus == Succeeded && pushStatus == Succeeded {
        var commitAt, pushAt, draftAt := world.clock(start), world.clock(start + 2), world.clock(start + 4);
        RememberedElsewhere(reg0, reg0, reg1, reg2, KeyOf(x, Commit), x.runId, commitAt, commitStatus);
        RememberedElsewhere(reg0, reg0, reg1, reg2, KeyOf(x, Push), x.runId, pushAt, Succeeded);
        RememberedElsewhere(reg1, reg0, reg2, reg2, KeyOf(x, PullRequest), x.runId, draftAt, prStatus);
      }
    }

    /** What the registry says of commit and push; the draft's key was not touched. */
    predicate BothRemembered(before: Dedup.Registry, after: Dedup.Registry, x: Input, start: nat,
                             commitStatus: Status, pushStatus: Status) {
      && Remembered(before, after, KeyOf(x, Commit), x.runId, world.clock(start), commitStatus)
      && (commitStatus == Succeeded ==>
            Remembered(before, after, KeyOf(x, Push), x.runId, world.clock(start + 2), pushStatus))
      && (KeyOf(x, PullRequest).Ok? ==> SameAt(before, after, KeyOf(x, PullRequest).value))
    }

    lemma CommitText(x: Input)
      ensures ("feat(" + x.taskId + "): " + x.taskTitle + " [run:" + x.runId + "]") + "|" + x.branchName
           == TextOf(Commit, x, world.commitSha)
    {
    }

    lemma CommitMayStart(reg: Dedup.Registry, x: Input)
      ensures Lawful([]) && (forall e :: !IsTried([], e)) && AllFinal(reg, {}) && SameOutside(reg, reg, {})
      ensures SameGates(approvals, approvals, x)
      ensures BothRemembered(reg, reg, x, ticks, SkippedNoChanges, SkippedNoChanges)
    {
      hide EffectKey;
    }

    lemma CommitDone(t: seq<Event>, outcome: Performed)
      requires SameTries([], t, Commit) && forall b :: Tried(Commit, b) in t <==> outcome == Done(b)
      ensures !IsTried(t, Push) && !IsTried(t, PullRequest)
      ensures StatusOf(outcome).Some? ==>
                StatusOk(t, Commit, if outcome.Done? then outcome.answer else Yes, StatusOf(outcome).value)
      ensures forall s | s != Succeeded && s != Failed :: StatusOk(t, Push, world.push, s)
    {
    }

    lemma PushedAfter(t: seq<Event>, u: seq<Event>)
      requires SameTries(t, u, Push)
      ensures IsTried(u, PullRequest) <==> IsTried(t, PullRequest)
      ensures forall answer, s :: StatusOk(t, Commit, answer, s) <==> StatusOk(u, Commit, answer, s)
    {
    }

    lemma OutsideBoth(reg0: Dedup.Registry, reg1: Dedup.Registry, reg2: Dedup.Registry, keys: set<string>)
      requires SameOutside(reg1, reg2, keys)
      ensures forall fewer | fewer <= keys && SameOutside(reg0, reg1, fewer) :: SameOutside(reg0, reg2, keys)
    {
    }

    lemma OnlyCommit(reg0: Dedup.Registry, reg1: Dedup.Registry, x: Input, start: nat, commitStatus: Status,
                     pushStatus: Status)
      requires Remembered(reg0, reg1, KeyOf(x, Commit), x.runId, world.clock(start), commitStatus)
      requires KeptElsewhere(reg0, reg1, x, Commit) && commitStatus != Succeeded
      ensures BothRemembered(reg0, reg1, x, start, commitStatus, pushStatus)
    {
      hide Remembered, EffectKey, TextOf;
    }

    lemma BothAfter(reg0: Dedup.Registry, reg1: Dedup.Registry, reg2: Dedup.Registry, x: Input, start: nat,
                    pushStatus: Status)
      requires Remembered(reg0, reg1, KeyOf(x, Commit), x.runId, world.clock(start), Succeeded)
      requires Remembered(reg1, reg2, KeyOf(x, Push), x.runId, world.clock(start + 2), pushStatus)
      requires KeptElsewhere(reg0, reg1, x, Commit) && KeptElsewhere(reg1, reg2, x, Push)
      ensures BothRemembered(reg0, reg2, x, start, Succeeded, pushStatus)
    {
      hide Remembered, EffectKey, TextOf;
      RememberedElsewhere(reg0, reg0, reg1, reg2, KeyOf(x, Commit), x.runId, world.clock(start), Succeeded);
      RememberedElsewhere(reg1, reg0, reg2, reg2, KeyOf(x, Push), x.runId, world.clock(start + 2), pushStatus);
    }

    /**
     * Each effect is tried at most once, directly after its persisted decision and a lease check; the push only
     * after a successful commit of this call and past its own gate, the draft only after a successful push and past
     * its own. On normal return no entry this call reserved is pending, and the statuses say what happened.
     */
    method Complete(x: Input) returns (result: Result, commitStatus: Status, pushStatus: Status, prStatus: Status)
      modifies this, registry
      ensures Lawful(trace)
      ensures IsTried(trace, Push) ==> Passes(config, old(approvals), x, GitPush)
      ensures IsTried(trace, PullRequest) ==> Passes(config, old(approvals), x, PrDraft)
      ensures SameOutside(old(registry.registry), registry.registry, reservedKeys)
      ensures result != Threw ==> AllFinal(registry.registry, reservedKeys)
      ensures result != Threw ==>
                exists waiting ::
                  CommitOutcome(config, world, old(approvals), x, trace, commitStatus, pushStatus, waiting)
                  && (result == ApprovalPending <==> waiting || IsWaiting(prStatus))
      ensures result != Threw ==> StatusOk(trace, PullRequest, world.draft, prStatus)
      ensures result != Threw ==>
                if pushStatus == Succeeded then GateDecides(config, old(approvals), x, PrDraft, prStatus)
                else prStatus == SkippedPushNotSuccessful
      ensures result != Threw ==>
                AllRemembered(old(registry.registry), registry.registry, x, old(ticks),
                              commitStatus, pushStatus, prStatus)
      ensures result != Threw ==>
                notes == [CommitNote(commitStatus, pushStatus), DraftNote(prStatus)] +
                           if result == ApprovalPending then [ApprovalNote] else []
      ensures old(approvals) <= approvals
      ensures result != Threw && IsWaiting(pushStatus) ==> Asked(approvals, x, GitPush)
      ensures result != Threw && IsWaiting(prStatus) ==> Asked(approvals, x, PrDraft)
      ensures Smooth(world, le, sha, x) ==> result != Threw
    {
      hide Lawful, GateStatus, GateDecides, Asked, Passes, CommitOutcome, IsTried, SameGates, Remembered, KeptElsewhere;
      hide EffectKey, TextOf, BothRemembered, AllRemembered, SameOutside, AllFinal, StatusOk, Smooth, IsWaiting;
      trace, notes, reservedKeys := [], [], {};
      EmptyTrace();
      result, commitStatus, prStatus := Threw, SkippedNoChanges, SkippedPushNotSuccessful;
      ghost var reg0 := registry.registry;
      var committed, pushed, waiting := CommitPhase(x);
      ghost var reg1, before := registry.registry, trace;
      pushStatus := pushed;
      if committed.None? {
        return;
      }
      commitStatus := committed.value;
      SmoothWrites(x);
      var written := RecordNote(CommitNote(commitStatus, pushStatus));
      if !written {
        return;
      }
      SameGatesDecideAlike(config, old(approvals), approvals, x);
      OutcomeSaysPushed(config, world, old(approvals), x, trace, commitStatus, pushStatus, waiting);
      ghost var asked := approvals;
      var drafted := Draft(x, pushStatus);
      OutcomeSurvives(config, world, old(approvals), x, before, trace, commitStatus, pushStatus, waiting);
      OutsideBoth(reg0, reg1, registry.registry, reservedKeys);
      StillAsked(asked, approvals, x, GitPush);
      if drafted.None? {
        return;
      }
      prStatus := drafted.value;
      RememberAll(reg0, reg1, registry.registry, x, old(ticks), commitStatus, pushStatus, prStatus);
      result := RecordEnd(prStatus, waiting || IsWaiting(prStatus));
    }

    lemma SmoothWrites(x: Input)
      ensures Smooth(world, le, sha, x) ==> forall n :: world.writeSucceeds(n)
    {
      hide EffectKey, TextOf;
    }

    /** The draft, if the branch was pushed. */
    method Draft(x: Input, pushStatus: Status) returns (status: Option<Status>)
      requires Lawful(trace) && AllFinal(registry.registry, reservedKeys) && !IsTried(trace, PullRequest)
      requires pushStatus == Succeeded ==> Tried(Push, Yes) in trace
      modifies this`trace, this`approvals, this`writes, this`policyCalls, this`leaseCalls, this`ticks,
               this`reservedKeys, registry
      ensures Lawful(trace) && SameTries(old(trace), trace, PullRequest) && SameGates(old(approvals), approvals, x)
      ensures old(approvals) <= approvals
      ensures IsTried(trace, PullRequest) ==> Passes(config, old(approvals), x, PrDraft)
      ensures SameOutside(old(registry.registry), registry.registry, reservedKeys) && old(reservedKeys) <= reservedKeys
      ensures KeptElsewhere(old(registry.registry), registry.registry, x, PullRequest)
      ensures status.Some? ==>
                && AllFinal(registry.registry, reservedKeys) && StatusOk(trace, PullRequest, world.draft, status.value)
                && (IsWaiting(status.value) ==> Asked(approvals, x, PrDraft))
                && if pushStatus == Succeeded then
                     && GateDecides(config, old(approvals), x, PrDraft, status.value)
                     && Remembered(old(registry.registry), registry.registry, KeyOf(x, PullRequest), x.runId,
                                   world.clock(old(ticks)), status.value)
                   else status.value == SkippedPushNotSuccessful && registry.registry == old(registry.registry)
      ensures Smooth(world, le, sha, x) ==> status.Some?
    {
      hide Lawful, GateStatus, GateDecides, Asked, Passes, IsTried, Remembered, KeptElsewhere, EffectKey, TextOf;
      hide SameOutside, AllFinal, StatusOk, Smooth, SameTries;
      if pushStatus == Succeeded {
        status := PullRequestPhase(x);
      } else {
        NotTriedMeans(trace, PullRequest);
        SameAtAll(registry.registry, reservedKeys, x, PullRequest);
        status := Some(SkippedPushNotSuccessful);
      }
    }

    /** The note on the draft, and that of a pending approval. */
    method RecordEnd(prStatus: Status, waiting: bool) returns (result: Result)
      modifies this`writes, this`notes
      ensures result != Threw ==>
                && result == (if waiting then ApprovalPending else Ok)
                && notes == old(notes) + [DraftNote(prStatus)] + if waiting then [ApprovalNote] else []
      ensures (forall n :: world.writeSucceeds(n)) ==> result != Threw
    {
      var written := RecordNote(DraftNote(prStatus));
      if !written {
        return Threw;
      }
      if waiting {
        written := RecordNote(ApprovalNote);
        if !written {
          return Threw;
        }
        return ApprovalPending;
      }
      result := Ok;
    }
  }

  /** Two calls for the same input on one registry, with whatever answers of the executors the second time. */
  method CompleteAgain(first: GitLifecycleCoordinator, second: GitLifecycleCoordinator, x: Input)
    returns (result1: Result, commit1: Status, result2: Result, commit2: Status)
    requires first != second && first.registry == second.registry && first.le == second.le && first.sha == second.sha
    modifies first, second, first.registry
    ensures result1 != Threw && commit1 == Succeeded && result2 != Threw && second.world.hasChanges == Yes &&
            second.world.clock(old(second.ticks)) < first.world.clock(old(first.ticks)) + 30 * 60 * 1000 ==>
              commit2 == SkippedDuplicate && forall e :: !IsTried(second.trace, e)
    ensures result1 != Threw && commit1 == Failed && result2 != Threw && second.world.hasChanges == Yes ==>
              IsTried(second.trace, Commit)
  {
    hide Lawful, Passes, GateDecides, AllFinal, SameOutside, EffectKey, TextOf, Remembered, Smooth;
    ghost var reg0 := first.registry.registry;
    var push1, pr1, push2, pr2;
    result1, commit1, push1, pr1 := first.Complete(x);
    ghost var reg1 := first.registry.registry;
    result2, commit2, push2, pr2 := second.Complete(x);
    SameCommitKey(first, second, x);
    if result1 != Threw && result2 != Threw && (commit1 == Succeeded || commit1 == Failed) {
      RememberedBlocks(reg0, reg1, first.KeyOf(x, Commit), x.runId, first.world.clock(old(first.ticks)), commit1,
                       second.world.clock(old(second.ticks)));
      if second.world.hasChanges == Yes {
        ghost var asked, t := old(second.approvals), second.trace;
        ghost var waiting :| CommitOutcome(second.config, second.world, asked, x, t, commit2, push2, waiting);
        OutcomeOfChanges(second.config, second.world, asked, x, t, commit2, push2, pr2, waiting);
        DuplicateMeansBlocked(reg1, second.registry.registry, second.KeyOf(x, Commit), x.runId,
                              second.world.clock(old(second.ticks)), commit2);
      }
    }
  }

  /** With changes at hand the commit is tried or a duplicate, and after a duplicate nothing is tried. */
  lemma OutcomeOfChanges(config: Config, world: World, approvals: seq<Approval>, x: Input, t: seq<Event>,
                         commitStatus: Status, pushStatus: Status, prStatus: Status, waiting: bool)
    requires CommitOutcome(config, world, approvals, x, t, commitStatus, pushStatus, waiting) && world.hasChanges == Yes
    requires StatusOk(t, PullRequest, world.draft, prStatus)
    requires pushStatus != Succeeded ==> prStatus == SkippedPushNotSuccessful
    ensures WasAttempted(commitStatus) && (IsTried(t, Commit) <==> commitStatus != SkippedDuplicate)
    ensures commitStatus == SkippedDuplicate ==> forall e :: !IsTried(t, e)
  {
    hide GateDecides, Passes, IsTried;
    StatusTells(t, Commit, world.commit, commitStatus);
    StatusTells(t, Push, world.push, pushStatus);
    StatusTells(t, PullRequest, world.draft, prStatus);
    forall e ensures IsTried(t, e) ==> commitStatus != SkippedDuplicate {
      match e { case Commit => case Push => case PullRequest => }
    }
  }

  lemma StatusTells(t: seq<Event>, e: Effect, answer: Answer, s: Status)
    requires StatusOk(t, e, answer, s)
    ensures IsTried(t, e) <==> s == Succeeded || s == Failed
  {
    forall a | Tried(e, a) in t ensures s == Succeeded || s == Failed {
      assert a == Yes || a == No || a == Throws;
    }
  }

  predicate WasAttempted(s: Status) {
    s == Succeeded || s == Failed || s == SkippedDuplicate
  }

  lemma DuplicateMeansBlocked(before: Dedup.Registry, after: Dedup.Registry, key: IK.Result<string>, owner: string,
                              at: int, s: Status)
    requires Remembered(before, after, key, owner, at, s) && WasAttempted(s)
    ensures key.Ok? && (s == SkippedDuplicate <==> Dedup.Blocks(before, key.value, at))
  {
  }

  /** The text of a commit does not depend on what it is going to be called. */
  lemma SameCommitKey(c: GitLifecycleCoordinator, d: GitLifecycleCoordinator, x: Input)
    requires c.le == d.le && c.sha == d.sha
    ensures c.KeyOf(x, Commit) == d.KeyOf(x, Commit)
  {
    hide EffectKey;
  }

  lemma EmptyTrace()
    ensures Lawful([]) && forall e :: !IsTried([], e)
  {
  }

  lemma NotTriedMeans(t: seq<Event>, e: Effect)
    ensures !IsTried(t, e) <==> forall answer :: Tried(e, answer) !in t
    ensures !IsTried(t, e) ==> forall answer :: StatusOk(t, e, answer, SkippedPushNotSuccessful)
  {
  }

  lemma OutcomeSaysPushed(config: Config, world: World, approvals: seq<Approval>, x: Input, t: seq<Event>,
                          commitStatus: Status, pushStatus: Status, waiting: bool)
    requires CommitOutcome(config, world, approvals, x, t, commitStatus, pushStatus, waiting)
    ensures Tried(Push, Yes) in t <==> pushStatus == Succeeded
  {
  }

  lemma OutcomeSurvives(config: Config, world: World, approvals: seq<Approval>, x: Input, t: seq<Event>, u: seq<Event>,
                        commitStatus: Status, pushStatus: Status, waiting: bool)
    requires CommitOutcome(config, world, approvals, x, t, commitStatus, pushStatus, waiting)
    requires SameTries(t, u, PullRequest)
    ensures CommitOutcome(config, world, approvals, x, u, commitStatus, pushStatus, waiting)
    ensures IsTried(t, Push) <==> IsTried(u, Push)
  {
  }

  lemma SuppressedAddsNothing(e: Effect)
    ensures IsAttempt([], e, Suppressed)
  {
  }

  /** `find` skips completed requests, so a gate never reports one. */
  lemma {:induction false} NeverCompleted(approvals: seq<Approval>, x: Input, action: Action)
    ensures GateStatus(approvals, x, action) != Completed
  {
    if approvals != [] && !IsOpen(approvals[0], x, action) {
      NeverCompleted(approvals[1..], x, action);
    }
  }

  function StatusOf(outcome: Performed): Option<Status> {
    match outcome
    case Suppressed => Some(SkippedDuplicate)
    case Done(Throws) => None
    case Done(answer) => Some(if answer == Yes then Succeeded else Failed)
    case Interrupted => None
  }

  predicate IsWaiting(s: Status) {
    s == PendingApproval || s == WaitingResume
  }

  /** The status says whether the effect was tried, and with what result. */
  predicate StatusOk(t: seq<Event>, e: Effect, answer: Answer, s: Status) {
    && (Tried(e, Yes) in t <==> s == Succeeded) && (Tried(e, No) in t <==> s == Failed) && Tried(e, Throws) !in t
    && (s == Succeeded ==> answer == Yes) && (s == Failed ==> answer == No)
  }

  /** Past its gate an effect is tried, unless it is a duplicate; otherwise the status says what the gate said. */
  predicate GateDecides(config: Config, approvals: seq<Approval>, x: Input, action: Action, s: Status) {
    if Passes(config, approvals, x, action) then s == Succeeded || s == Failed || s == SkippedDuplicate
    else
      match GateStatus(approvals, x, action)
      case Rejected => s == SkippedRejected
      case Approved => s == WaitingResume
      case _ => s == PendingApproval
  }

  ghost predicate CommitOutcome(config: Config, world: World, approvals: seq<Approval>, x: Input, t: seq<Event>,
                                commitStatus: Status, pushStatus: Status, waiting: bool) {
    && StatusOk(t, Commit, world.commit, commitStatus) && StatusOk(t, Push, world.push, pushStatus)
    && (commitStatus == Succeeded || commitStatus == Failed || commitStatus == SkippedDuplicate ||
        commitStatus == SkippedNoChanges)
    && (commitStatus == SkippedNoChanges <==> world.hasChanges == No)
    && (if commitStatus == Succeeded then
          && GateDecides(config, approvals, x, GitPush, pushStatus)
          && (waiting <==> IsWaiting(pushStatus) || exists a :: IsRisk(world, a) && !Passes(config, approvals, x, a))
        else !waiting && pushStatus == if commitStatus == Failed then SkippedCommitFailed else commitStatus)
  }

  predicate IsFinal(reg: Dedup.Registry, key: string) {
    key in reg && (reg[key].status == Dedup.Succeeded || reg[key].status == Dedup.Failed)
  }

  predicate AllFinal(reg: Dedup.Registry, keys: set<string>) {
    forall k | k in keys :: IsFinal(reg, k)
  }

  ghost predicate SameExcept(a: Dedup.Registry, b: Dedup.Registry, key: string) {
    forall k | k != key :: (k in a <==> k in b) && (k in a ==> a[k] == b[k])
  }

  ghost predicate SameOutside(a: Dedup.Registry, b: Dedup.Registry, keys: set<string>) {
    forall k | k !in keys :: (k in a <==> k in b) && (k in a ==> a[k] == b[k])
  }

  ghost predicate SameTries(t: seq<Event>, u: seq<Event>, e: Effect) {
    forall d, b | d != e :: Tried(d, b) in t <==> Tried(d, b) in u
  }

  ghost predicate SameGates(a: seq<Approval>, b: seq<Approval>, x: Input) {
    forall action :: GateStatus(a, x, action) == GateStatus(b, x, action)
  }

  lemma SameGatesDecideAlike(config: Config, a: seq<Approval>, b: seq<Approval>, x: Input)
    requires SameGates(a, b, x)
    ensures forall action :: Passes(config, a, x, action) <==> Passes(config, b, x, action)
    ensures forall action, s :: GateDecides(config, a, x, action, s) <==> GateDecides(config, b, x, action, s)
  {
  }
}
