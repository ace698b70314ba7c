/**
 * One run of a task against a shared store. The run keeps a working copy of the state, repeats in it whatever it
 * appends to the store, and at the end saves the copy wholesale. Other clients may write before every access.
 */
module TaskRun {
  import opened Options
  import opened StateStore
  import opened TaskPlan

  class TaskRunner {
    const store: InMemoryStateStore
    const foreign: nat -> seq<ForeignMove>
    /** Which accesses are not turned down: by the lease check, or by a check of the store that is not modelled. */
    const admits: nat -> bool
    var calls: nat
    var local: Project
    var buffer: Option<seq<RunStep>>
    var latestRevision: Option<nat>

    // For the proof only. `log` is the history of the accesses from `initial` on; `loaded` and `adopted` are the
    // states the copy's contents and revision come from, found by the accesses 0 and `adoptedAt`; `overlooked` is
    // what the latter held beyond the former;
    // `produced` and `unpushed` are the run's own entries, and those not yet in the copy; `recorded` are the steps
    // recorded since the run started at access `started`.
    ghost const initial: Project
    ghost var log: seq<Access>
    ghost var saves: seq<Access>
    ghost var started: nat
    ghost var recorded: seq<RunStep>
    ghost var loaded: Project
    ghost var adopted: Project
    ghost var adoptedAt: nat
    ghost var overlooked: set<Item>
    ghost var produced: set<Item>
    ghost var unpushed: set<Item>
    ghost var flushRaised: bool

    /** The ghost fields are what the history says: nothing is claimed of states the store did not hold. */
    ghost predicate Traced()
      reads this, store
    {
      && Faithful(initial, foreign, admits, log) && calls == |log| && store.state == Now(initial, log)
      && saves == Saves(log)
      && started <= |log| && recorded == StepsSince(log, started)
      && Anchored(log, loaded, adoptedAt, adopted)
    }

    /** The same between the lease check, after which the store holds `before`, and the act. */
    ghost predicate Midway(before: Project)
      reads this
    {
      && Faithful(initial, foreign, admits, log) && calls == |log| + 1
      && before == Interfered(Now(initial, log), foreign(|log|))
      && saves == Saves(log)
      && started <= |log| && recorded == StepsSince(log, started)
      && Anchored(log, loaded, adoptedAt, adopted)
    }

    /** Under an equal revision the store holds nothing beyond the copy but what the run overlooked at the start. */
    ghost predicate InStep()
      reads this, store
    {
      && local.revision <= store.state.revision
      && (latestRevision.Some? ==> latestRevision.value <= store.state.revision)
      && (local.revision == store.state.revision ==>
            Items(store.state) - Items(local) - unpushed == overlooked - produced)
      && StepsKept(buffer, local.runSteps, loaded.runSteps, recorded)
    }

    /** A flush now would leave the revision alone. */
    predicate Settled()
      reads this
    {
      latestRevision.Some? ==> latestRevision.value <= local.revision
    }

    /** Nobody writes to the store beside the run, and nothing is turned down. */
    ghost predicate Undisturbed() {
      forall n :: foreign(n) == [] && admits(n)
    }

    /** Then the next write is not refused: the copy counts on the store's revision. */
    ghost predicate OnTrack()
      reads this, store
    {
      Undisturbed() && local.revision == store.state.revision && store.state.tasks.Keys == initial.tasks.Keys
    }

    /** Nothing has been done yet. */
    ghost predicate Ready()
      reads this, store
    {
      && Traced() && log == [] && started == 0
      && unpushed == {} && produced == {} && !flushRaised && buffer.None? && latestRevision.None?
    }

    constructor (store: InMemoryStateStore, foreign: nat -> seq<ForeignMove>, admits: nat -> bool)
      ensures this.store == store && this.foreign == foreign && this.admits == admits
      ensures initial == store.state && Ready()
    {
      this.store, this.foreign, this.admits := store, foreign, admits;
      calls, local, buffer, latestRevision := 0, store.state, None, None;
      initial, log, saves, started, recorded := store.state, [], [], 0, [];
      loaded, adopted, adoptedAt := store.state, store.state, 0;
      overlooked, produced, unpushed, flushRaised := {}, {}, {}, false;
    }

    /** The lease check before an access, and what others write before the access itself. */
    method RequireLease() returns (held: bool)
      requires Traced()
      modifies this`calls, store
      ensures Midway(store.state) && calls == old(calls) + 1 && held == admits(|log|)
      ensures old(InStep()) ==> InStep()
      ensures Undisturbed() ==> held && store.state == old(store.state)
      ensures old(OnTrack()) ==> held && OnTrack()
    {
      hide Faithful, Items, Saves, StepsSince, Anchored;
      InterferenceKeepsItems(store.state, foreign(calls));
      var moves := foreign(calls);
      held := admits(calls);
      for k := 0 to |moves|
        invariant store.state == Interfered(old(store.state), moves[..k]) && calls == old(calls)
      {
        assert moves[..k + 1][..k] == moves[..k];
        store.state := Moved(store.state, moves[k]);
      }
      assert moves[..|moves|] == moves;
      calls := calls + 1;
    }

    /** Enters an access into the history. */
    ghost method Note(before: Project, act: Act)
      requires Midway(before) && store.state == After(before, act) && (act != Looked ==> admits(|log|))
      requires |log| == 0 ==> loaded == before && adopted == before && adoptedAt == 0
      modifies this`log, this`saves, this`recorded
      ensures Traced() && log == old(log) + [Access(before, store.state, act)]
      ensures saves == old(saves) +
                if IsSave(Access(before, store.state, act)) then [Access(before, store.state, act)] else []
      ensures recorded == if act.Stepped? then old(recorded) + [act.step] else old(recorded)
    {
      hide After, Interfered, Faithful, Saves, StepsSince, Anchored, IsSave;
      LogNext(initial, foreign, admits, log, Access(before, store.state, act));
      if IsSave(Access(before, store.state, act)) {
        saves := saves + [Access(before, store.state, act)];
      }
      if act.Stepped? {
        recorded := recorded + [act.step];
      }
      log := log + [Access(before, store.state, act)];
    }

    /** Enters a read, or a write that was turned down. */
    ghost method NoteLook()
      requires Midway(store.state) && log != []
      modifies this`log
      ensures Traced() && log == old(log) + [Access(store.state, store.state, Looked)]
    {
      hide Interfered, Faithful, Saves, StepsSince, Anchored;
      LogNext(initial, foreign, admits, log, Access(store.state, store.state, Looked));
      log := log + [Access(store.state, store.state, Looked)];
    }

    ghost method NoteStep(before: Project, step: RunStep)
      requires Midway(before) && store.state == After(before, Stepped(step)) && admits(|log|) && log != []
      modifies this`log, this`recorded
      ensures Traced() && log == old(log) + [Access(before, store.state, Stepped(step))]
      ensures recorded == old(recorded) + [step]
    {
      hide After, Interfered, Faithful, Saves, StepsSince, Anchored;
      LogNext(initial, foreign, admits, log, Access(before, store.state, Stepped(step)));
      recorded := recorded + [step];
      log := log + [Access(before, store.state, Stepped(step))];
    }

    /** Enters one of the `record*` calls. */
    ghost method NoteWrite(before: Project, item: Item, expected: nat)
      requires Midway(before) && store.state == After(before, Wrote(item, expected)) && admits(|log|) && log != []
      modifies this`log
      ensures Traced() && log == old(log) + [Access(before, store.state, Wrote(item, expected))]
    {
      hide After, Interfered, Faithful, Saves, StepsSince, Anchored;
      LogNext(initial, foreign, admits, log, Access(before, store.state, Wrote(item, expected)));
      log := log + [Access(before, store.state, Wrote(item, expected))];
    }

    /** One of the `record*` calls, under the revision of the working copy, which then takes the new revision. */
    method Write(i: Item) returns (ok: bool)
      requires Traced() && log != [] && InStep()
      modifies this`calls, this`local, this`produced, this`unpushed, this`log, store
      ensures Traced() && |log| == |old(log)| + 1 && log[..|old(log)|] == old(log)
      ensures var a := log[|log| - 1];
              if admits(|old(log)|) then
                && a.act == Wrote(i, old(local.revision))
                && ok == Record(a.before, ChangeFor(i), Some(old(local.revision))).1.Committed?
              else a.act == Looked && !ok
      ensures local == if ok then WithRevision(old(local), store.state.revision) else old(local)
      ensures ok ==> InStep() && Settled() && produced == old(produced) + {i} && unpushed == old(unpushed) + {i}
      ensures ok && i.PolicyItem? ==> EndsWith(store.state.policyDecisions, i.p)
      ensures old(OnTrack()) && (i.FailureItem? ==> i.f.taskId in initial.tasks) ==> ok && OnTrack()
      ensures !ok ==> produced == old(produced) && unpushed == old(unpushed)
    {
      hide Interfered, Record, Items, Faithful, Saves, StepsSince, Anchored, InStep, OnTrack, EndsWith;
      var held := RequireLease();
      if !held {
        NoteLook();
        return false;
      }
      ok := WriteNow(i);
    }

    /** The write itself, after the lease check. */
    method WriteNow(i: Item) returns (ok: bool)
      requires Midway(store.state) && admits(|log|) && log != [] && InStep()
      modifies this`local, this`produced, this`unpushed, this`log, store
      ensures Traced() && log == old(log) + [Access(old(store.state), store.state, Wrote(i, old(local.revision)))]
      ensures ok == Record(old(store.state), ChangeFor(i), Some(old(local.revision))).1.Committed?
      ensures local == if ok then WithRevision(old(local), store.state.revision) else old(local)
      ensures ok ==> InStep() && Settled() && produced == old(produced) + {i} && unpushed == old(unpushed) + {i}
      ensures ok && i.PolicyItem? ==> EndsWith(store.state.policyDecisions, i.p)
      ensures old(OnTrack()) && (i.FailureItem? ==> i.f.taskId in initial.tasks) ==> ok && OnTrack()
      ensures !ok ==> produced == old(produced) && unpushed == old(unpushed)
    {
      hide Interfered, Record, Items, Faithful, Saves, StepsSince, Anchored, Undisturbed, EndsWith;
      ghost var s := store.state;
      RecordCommits(s, i, local.revision);
      var outcome := Dispatch(i);
      ok := outcome.Committed?;
      NoteWrite(s, i, local.revision);
      if ok {
        RecordedItems(s, i, local.revision);
        Recording(Items(s), Items(store.state), Items(local), unpushed, overlooked - produced, i);
        assert overlooked - (produced + {i}) == overlooked - produced - {i};
        ItemsIgnoreTheRest(WithRevision(local, store.state.revision), local);
        local := WithRevision(local, store.state.revision);
        produced, unpushed := produced + {i}, unpushed + {i};
      }
    }

    method Dispatch(i: Item) returns (outcome: Outcome)
      modifies store
      ensures (store.state, outcome) == Record(old(store.state), ChangeFor(i), Some(local.revision))
    {
      match i {
        case ArtifactItem(a) => outcome := store.RecordArtifact(a, Some(local.revision));
        case FailureItem(f) =>
          var retryCount;
          outcome, retryCount := store.RecordFailure(f, Some(local.revision));
        case DecisionItem(d) => outcome := store.RecordDecision(d, Some(local.revision));
        case PolicyItem(d) => outcome := store.RecordPolicyDecision(d, Some(local.revision));
      }
    }

    method Push(i: Item)
      modifies this`local, this`produced, this`unpushed
      ensures local == Pushed(old(local), i)
      ensures produced == old(produced) + {i} && unpushed == old(unpushed) - {i}
      ensures old(InStep()) ==> InStep()
      ensures old(Settled()) ==> Settled()
      ensures old(Traced()) ==> Traced()
      ensures old(OnTrack()) ==> OnTrack()
    {
      hide Items, Faithful, Saves, StepsSince, Anchored;
      PushedItems(local, i);
      if local.revision == store.state.revision && InStep() {
        Pushing(Items(store.state), Items(local), unpushed, overlooked - produced, i);
        assert overlooked - (produced + {i}) == overlooked - produced - {i};
      }
      local := Pushed(local, i);
      produced, unpushed := produced + {i}, unpushed - {i};
    }

    method RecordArtifact(a: Artifact) returns (ok: bool)
      requires Traced() && log != [] && InStep() && unpushed == {}
      modifies this`calls, this`local, this`produced, this`unpushed, this`log, store
      ensures Traced() && log != []
      ensures ok ==> InStep() && Settled() && unpushed == {}
      ensures produced <= old(produced) + {ArtifactItem(a)}
      ensures ok ==> local == Pushed(WithRevision(old(local), store.state.revision), ArtifactItem(a))
      ensures ok ==> Extended(old(local), local, [a], []) && calls == old(calls) + 1
      ensures old(OnTrack()) ==> ok && OnTrack()
    {
      hide InStep, Record, ChangeFor, Items, Faithful, Saves, StepsSince, Anchored, OnTrack, Undisturbed;
      ok := Write(ArtifactItem(a));
      if ok {
        Push(ArtifactItem(a));
      }
    }

    /** An escalation report enters the copy before it is recorded. */
    method PushAndRecord(a: Artifact) returns (ok: bool)
      requires Traced() && log != [] && InStep() && unpushed == {}
      modifies this`calls, this`local, this`produced, this`unpushed, this`log, store
      ensures Traced() && log != []
      ensures ok ==> InStep() && Settled() && unpushed == {}
      ensures produced <= old(produced) + {ArtifactItem(a)}
      ensures ok ==> local == WithRevision(Pushed(old(local), ArtifactItem(a)), store.state.revision)
      ensures old(log) <= log
      ensures old(OnTrack()) ==> ok && OnTrack()
    {
      hide Items, Faithful, Saves, StepsSince, Anchored, Record, Interfered;
      Push(ArtifactItem(a));
      PushedItems(old(local), ArtifactItem(a));
      ok := Write(ArtifactItem(a));
      if ok {
        ItemsIgnoreTheRest(local, Pushed(old(local), ArtifactItem(a)));
        assert Items(store.state) - Items(local) - unpushed == Items(store.state) - Items(local);
        unpushed := {};
      }
    }

    /** Records an `allow` decision and reads it back; a missing, a stale or a denying one stops the run. */
    method PersistAndRequire(d: PolicyDecision) returns (ok: bool)
      requires Traced() && log != [] && InStep() && unpushed == {}
      modifies this`calls, this`local, this`produced, this`unpushed, this`log, store
      ensures Traced() && log != []
      ensures ok ==> InStep() && Settled() && unpushed == {}
      ensures produced <= old(produced) + {PolicyItem(Issued(d))}
      ensures ok ==> exists k: nat ::
                LastAnswer(store.state.policyDecisions, k, d) && Answers(store.state.policyDecisions[k], Issued(d))
      ensures ok ==> Extended(old(local), local, [], [Issued(d)]) && calls == old(calls) + 2
      ensures old(OnTrack()) ==> ok && OnTrack()
    {
      hide Items, Interfered, InStep, Faithful, Saves, StepsSince, Anchored, OnTrack;
      hide EndsWith, Record, LastAnswer, Answers;
      ok := Write(PolicyItem(Issued(d)));
      if !ok {
        return false;
      }
      Push(PolicyItem(Issued(d)));
      ok := ReadBack(d);
    }

    /** A read needs no lease, but others may write before it. */
    method ReadBack(d: PolicyDecision) returns (ok: bool)
      requires Traced() && log != []
      modifies this`calls, this`log, store
      ensures Traced() && log != [] && (old(InStep()) ==> InStep()) && calls == old(calls) + 1
      ensures ok ==> exists k: nat ::
                LastAnswer(store.state.policyDecisions, k, d) && Answers(store.state.policyDecisions[k], Issued(d))
      ensures old(OnTrack()) ==> OnTrack() && (EndsWith(old(store.state).policyDecisions, Issued(d)) ==> ok)
    {
      hide Items, Interfered, Faithful, Saves, StepsSince, Anchored;
      var _ := RequireLease();
      NoteLook();
      var k := |store.state.policyDecisions|;
      while k > 0
        invariant 0 <= k <= |store.state.policyDecisions|
        invariant forall j | k <= j < |store.state.policyDecisions| :: !SameQuery(store.state.policyDecisions[j], d)
      {
        k := k - 1;
        var found := store.state.policyDecisions[k];
        if SameQuery(found, d) {
          assert LastAnswer(store.state.policyDecisions, k, d);
          return found.policyVersion == POLICY_VERSION && found.inputHash == d.inputHash && found.allows;
        }
      }
      ok := false;
    }

    /** A refused step leaves everything as it is. */
    method RecordStep(step: RunStep) returns (ok: bool)
      requires Traced() && log != [] && InStep()
      modifies this`calls, this`buffer, this`latestRevision, this`log, this`saves, this`recorded, store
      ensures Traced() && log != [] && saves == old(saves) && InStep()
      ensures buffer.Some? == old(buffer).Some?
      ensures Follows(old(recorded), StepRun(step, admits, old(calls)), recorded, ok, calls)
      ensures ok ==> latestRevision == Some(store.state.revision)
      ensures old(OnTrack()) ==> OnTrack()
    {
      hide Interfered, Items, Faithful, Saves, StepsSince, Anchored, Now;
      ok := RequireLease();
      if !ok {
        NoteLook();
        return;
      }
      ghost var s := store.state;
      var revision := store.RecordRunStep(step);
      NoteStep(s, step);
      ItemsIgnoreTheRest(s, store.state);
      latestRevision := Some(revision);
      if buffer.Some? {
        OneStepMore(local.runSteps, buffer.value, loaded.runSteps, old(recorded), step);
        buffer := Some(buffer.value + [step]);
      }
    }

    method RunTool(call: ToolCall) returns (ok: bool)
      requires Traced() && log != [] && InStep()
      modifies this`calls, this`buffer, this`latestRevision, this`log, this`saves, this`recorded, store
      ensures Traced() && log != [] && saves == old(saves) && InStep() && buffer.Some? == old(buffer).Some?
      ensures Follows(old(recorded), ToolRun(call, admits, old(calls)), recorded, ok, calls)
      ensures old(OnTrack()) ==> OnTrack()
    {
      hide Traced, InStep;
      if call.ran {
        ok := RecordStep(call.step);
        if ok && call.reported {
          return true;
        }
        ghost var first := StepRun(call.step, admits, old(calls));
        ok := RecordStep(call.fallback);
        FollowsThen(old(recorded), first, StepRun(call.fallback, admits, first.next), recorded, ok, calls);
      } else {
        ok := RecordStep(call.fallback);
      }
    }

    method RunLoop(loop: Loop) returns (ok: bool)
      requires Traced() && log != [] && InStep()
      modifies this`calls, this`buffer, this`latestRevision, this`log, this`saves, this`recorded, store
      ensures Traced() && log != [] && saves == old(saves) && InStep() && buffer.Some? == old(buffer).Some?
      ensures Follows(old(recorded), LoopRun(loop.tools, loop.throws, admits, old(calls)), recorded, ok, calls)
      ensures old(OnTrack()) ==> OnTrack()
    {
      hide Traced, InStep, ToolRun, OnTrack, Undisturbed;
      ghost var whole := LoopRun(loop.tools, loop.throws, admits, calls);
      for k := 0 to |loop.tools|
        invariant Traced() && log != [] && saves == old(saves) && InStep() && buffer.Some? == old(buffer).Some?
        invariant old(OnTrack()) ==> OnTrack()
        invariant var rest := LoopRun(loop.tools[k..], loop.throws, admits, calls);
                  old(recorded) + whole.steps == recorded + rest.steps && whole.ok == rest.ok && whole.next == rest.next
      {
        assert loop.tools[k..][0] == loop.tools[k] && loop.tools[k..][1..] == loop.tools[k + 1..];
        ok := RunTool(loop.tools[k]);
        if !ok {
          return;
        }
      }
      ok := !loop.throws;
    }

    /** The second execution, after an output of the first that was invalid or could not be recorded and reported. */
    method ExecuteAgain(role: Role) returns (ok: bool)
      requires Traced() && log != [] && InStep()
      modifies this`calls, this`buffer, this`latestRevision, this`log, this`saves, this`recorded, store
      ensures Traced() && log != [] && saves == old(saves) && InStep() && buffer.Some? == old(buffer).Some?
      ensures Follows(old(recorded), SecondRun(role, admits, old(calls)), recorded, ok, calls)
      ensures old(OnTrack()) ==> OnTrack()
    {
      hide Traced, InStep, LoopRun, OnTrack, Undisturbed;
      ghost var loop := LoopRun(role.second.tools, role.second.throws, admits, calls);
      ok := RunLoop(role.second);
      if !ok {
        return;
      }
      ok := RecordStep(role.secondStep);
      FollowsThen(old(recorded), loop, StepRun(role.secondStep, admits, loop.next), recorded, ok, calls);
      ok := ok && role.secondValid && role.secondReported;
    }

    method Execute(role: Role) returns (ok: bool)
      requires Traced() && log != [] && InStep()
      modifies this`calls, this`buffer, this`latestRevision, this`log, this`saves, this`recorded, store
      ensures Traced() && log != [] && saves == old(saves) && InStep() && buffer.Some? == old(buffer).Some?
      ensures Follows(old(recorded), RoleRun(role, admits, old(calls)), recorded, ok, calls)
      ensures old(OnTrack()) ==> OnTrack()
    {
      hide Traced, InStep, LoopRun, SecondRun, OnTrack, Undisturbed;
      ghost var done := LoopRun(role.first.tools, role.first.throws, admits, calls);
      ok := RunLoop(role.first);
      if !ok {
        return;
      }
      if role.valid {
        ok := RecordStep(role.step);
        FollowsThen(old(recorded), done, StepRun(role.step, admits, done.next), recorded, ok, calls);
        done := Then(done, StepRun(role.step, admits, done.next));
        if ok && role.reported {
          return;
        }
      }
      ok := ExecuteAgain(role);
      FollowsThen(old(recorded), done, SecondRun(role, admits, done.next), recorded, ok, calls);
    }

    /** The recorded steps go into the working copy, whose revision never drops below theirs. */
    method FlushToState()
      modifies this`local, this`buffer, this`latestRevision, this`flushRaised
      ensures var steps := if old(buffer).Some? then old(buffer).value else [];
              local.runSteps == old(local).runSteps + steps
      ensures buffer == if old(buffer).Some? then Some([]) else None
      ensures local == old(local).(revision := local.revision, runSteps := local.runSteps)
      ensures old(Settled()) ==> local.revision == old(local).revision && flushRaised == old(flushRaised) && Settled()
      ensures old(InStep()) && old(Settled()) ==> InStep()
      ensures old(Settled()) && old(OnTrack()) ==> OnTrack()
      ensures old(Traced()) ==> Traced()
    {
      hide Items, Faithful, Saves, StepsSince, Anchored;
      if buffer.None? || buffer.value == [] {
        return;
      }
      ItemsIgnoreTheRest(local, local.(runSteps := local.runSteps + buffer.value));
      local := local.(runSteps := local.runSteps + buffer.value);
      if latestRevision.Some? && latestRevision.value > local.revision {
        local := local.(revision := latestRevision.value);
        flushRaised := true;
      }
      buffer, latestRevision := Some([]), None;
    }

    /**
     * The wholesale save, which goes through only against the revision the copy counts on. What the store held just
     * before and the saved snapshot lacks is what was overlooked; the run steps it holds are those of the copy.
     */
    method Save() returns (ok: bool)
      requires Traced() && log != [] && InStep() && unpushed == {}
      modifies this`calls, this`local, this`saves, this`log, this`recorded, store
      ensures Traced() && log != [] && recorded == old(recorded) && old(log) <= log
      ensures !ok ==> saves == old(saves)
      ensures old(OnTrack()) ==> ok
      ensures ok ==> var a := Access(log[|log| - 1].before, store.state, SavedCopy(old(local)));
                     && saves == old(saves) + [a] && log == old(log) + [a]
                     && a.after == WithRevision(old(local), a.before.revision + 1)
                     && Items(a.before) - Items(a.after) == overlooked - produced
    {
      hide Items, Interfered, Faithful, Saves, StepsSince, Anchored;
      ok := RequireLease();
      if !ok {
        NoteLook();
        return;
      }
      ghost var before := store.state;
      var outcome := store.CommitSnapshot(local, Some(local.revision));
      Note(before, SavedCopy(local));
      ok := outcome.Committed?;
      if ok {
        ItemsIgnoreTheRest(store.state, local);
        local := WithRevision(local, outcome.revision);
      }
    }

    // ----- The run -----

    /** Loads the working copy; a run that selects its task then adopts the store's revision, but not its contents. */
    method Load(selection: Option<Role>) returns (ok: bool)
      requires Ready()
      modifies this`calls, this`local, this`buffer, this`latestRevision, this`overlooked, this`loaded, this`adopted,
               this`adoptedAt,
               this`log, this`saves, this`recorded, store
      ensures Traced() && log != [] && saves == [] && buffer.None?
      ensures overlooked == Items(adopted) - Items(loaded)
      ensures selection.None? ==> adopted == loaded
      ensures adopted.revision == loaded.revision ==> overlooked == {}
      ensures ok ==> InStep() && local == WithRevision(loaded, adopted.revision)
      ensures ok ==> adoptedAt == AdoptionAt(selection, admits)
      ensures ok ==> calls == StartAt(selection, admits) - 2
      ensures Undisturbed() ==> (ok <==> selection.Some? ==> RoleSucceeds(selection.value)) && (ok ==> OnTrack())
    {
      hide Interfered, Items, Faithful, Saves, StepsSince, Anchored;
      NothingSaved();
      ok := FirstLook();
      if !ok || selection.None? {
        return;
      }
      UndisturbedRoleHere(selection.value, calls);
      ok := Execute(selection.value);
      if !ok {
        return;
      }
      Adopt();
    }

    lemma NothingSaved()
      ensures Saves([]) == [] && forall lost, steps :: Leaves(Threw, [], lost, steps)
    {
    }

    /** The load, and the first check of the lease. */
    method FirstLook() returns (held: bool)
      requires Ready()
      modifies this`calls, this`local, this`overlooked, this`loaded, this`adopted, this`adoptedAt,
               this`log, this`saves, this`recorded, store
      ensures Traced() && log != [] && saves == old(saves) && InStep()
      ensures adopted == loaded == local && overlooked == {} == Items(adopted) - Items(loaded)
      ensures adoptedAt == 0 && calls == 2
      ensures Undisturbed() ==> held && OnTrack()
    {
      hide Items, Interfered, Faithful, Saves, StepsSince, Anchored;
      TakeCopy();
      held := RequireLease();
      NoteLook();
    }

    method TakeCopy()
      requires Ready()
      modifies this`calls, this`local, this`overlooked, this`loaded, this`adopted, this`adoptedAt,
               this`log, this`saves, this`recorded, store
      ensures Traced() && log != [] && saves == old(saves) && InStep()
      ensures adopted == loaded == local && overlooked == {} == Items(adopted) - Items(loaded)
      ensures adoptedAt == 0 && calls == 1
      ensures Undisturbed() ==> OnTrack()
    {
      hide Items, Interfered, Faithful, Saves, StepsSince;
      var _ := RequireLease();
      local, loaded, adopted, adoptedAt, overlooked := store.state, store.state, store.state, 0, {};
      Note(store.state, Looked);
      assert Items(store.state) - Items(local) - unpushed == overlooked - produced;
    }

    /** The copy, unchanged since the load, takes the store's revision. */
    method Adopt()
      requires Traced() && log != [] && InStep()
      requires unpushed == {} && produced == {} && overlooked == {} && local == loaded
      modifies this`calls, this`local, this`overlooked, this`adopted, this`adoptedAt, this`log, store
      ensures Traced() && log != [] && adopted == store.state && local == WithRevision(loaded, adopted.revision)
      ensures overlooked == Items(adopted) - Items(loaded)
      ensures adopted.revision == loaded.revision ==> overlooked == {}
      ensures InStep() && adoptedAt == old(calls) && calls == old(calls) + 1
      ensures old(OnTrack()) ==> OnTrack()
    {
      hide Items, Interfered, Faithful, Saves, StepsSince;
      var _ := RequireLease();
      NoteLook();
      assert log[|log| - 1].before == store.state;
      ItemsIgnoreTheRest(WithRevision(local, store.state.revision), local);
      local := WithRevision(local, store.state.revision);
      adopted, adoptedAt, overlooked := store.state, |log| - 1, Items(store.state) - Items(loaded);
      assert Items(store.state) - Items(local) - unpushed == overlooked - produced;
      if adopted.revision == loaded.revision {
        assert Items(store.state) - Items(loaded) - {} == {} - {};
        assert overlooked == Items(store.state) - Items(loaded) - {};
      }
    }

    method StartRun(taskId: Id)
      requires Traced() && buffer.None?
      modifies this`local, this`buffer, this`latestRevision, this`started, this`recorded
      ensures Traced() && buffer == Some([]) && latestRevision == None && started == |log| == calls && recorded == []
      ensures local == old(local).(activeTask := Some(taskId))
      ensures old(InStep()) ==> InStep()
      ensures old(OnTrack()) ==> OnTrack()
    {
      hide Items, Faithful, Saves, Anchored;
      buffer, latestRevision := Some([]), None;
      ItemsIgnoreTheRest(local, local.(activeTask := Some(taskId)));
      local := local.(activeTask := Some(taskId));
      started, recorded := |log|, [];
    }

    method RecordStages(stages: seq<Artifact>) returns (ok: bool)
      requires Traced() && log != [] && InStep() && unpushed == {}
      modifies this`calls, this`local, this`produced, this`unpushed, this`log, store
      ensures Traced() && log != []
      ensures ok ==> InStep() && unpushed == {}
      ensures produced <= old(produced) + Artifacts(stages)
      ensures ok ==> Extended(old(local), local, stages, [])
      ensures old(OnTrack()) ==> ok && OnTrack()
    {
      hide Traced, InStep, Pushed, OnTrack, Undisturbed, Extended, WithRevision;
      ExtendedByNothing(local);
      for k := 0 to |stages|
        invariant Traced() && log != [] && InStep() && unpushed == {}
        invariant produced <= old(produced) + Artifacts(stages)
        invariant Extended(old(local), local, stages[..k], [])
        invariant old(OnTrack()) ==> OnTrack()
      {
        ghost var before := local;
        ok := RecordArtifact(stages[k]);
        if !ok {
          return;
        }
        ExtendedTwice(old(local), before, local, stages[..k], [stages[k]], [], []);
        assert stages[..k + 1] == stages[..k] + [stages[k]];
      }
      assert stages[..|stages|] == stages;
      ok := true;
    }

    /** The artifacts of the workspace, before the run as such starts. */
    method Prepare(plan: Plan) returns (ok: bool)
      requires Traced() && log != [] && InStep() && unpushed == {} && produced <= Own(plan) && buffer.None?
      modifies this`calls, this`local, this`produced, this`unpushed, this`log, store
      ensures Traced() && log != []
      ensures ok ==> InStep() && unpushed == {}
      ensures produced <= Own(plan)
      ensures ok ==> Extended(old(local), local, [plan.workspace, plan.branch], []) && calls == old(calls) + 2
      ensures old(OnTrack()) ==> ok && OnTrack()
    {
      hide Traced, InStep, Pushed, Own, OnTrack, Undisturbed, Extended, WithRevision;
      OwnEntries(plan);
      ok := RecordArtifact(plan.workspace);
      if ok {
        ghost var before := local;
        ok := RecordArtifact(plan.branch);
        if ok {
          ExtendedTwice(old(local), before, local, [plan.workspace], [plan.branch], [], []);
          assert [plan.workspace] + [plan.branch] == [plan.workspace, plan.branch];
        }
      }
    }

    /** From the preflight decision to the verdict of the tester. */
    method Work(plan: Plan) returns (verdict: Verdict)
      requires Traced() && log != [] && InStep() && unpushed == {} && produced <= Own(plan) && buffer.Some?
      modifies this`calls, this`local, this`buffer, this`latestRevision, this`produced, this`unpushed,
               this`log, this`saves, this`recorded, store
      ensures Traced() && log != [] && saves == old(saves) && buffer.Some?
      ensures verdict != Abort ==> InStep() && unpushed == {}
      ensures produced <= Own(plan)
      ensures VerdictOk(plan, verdict)
      ensures verdict != Abort ==>
                && recorded == old(recorded) + WorkSteps(plan, admits, old(calls))
                && Extended(old(local), local, [plan.promptArtifact] + StagesOf(plan), [Issued(plan.preflight)])
      ensures old(OnTrack()) ==>
                (verdict == Abort <==> WorkAborts(plan)) && (verdict != Abort ==> OnTrack())
    {
      hide Traced, InStep, Pushed, Own, Settled, LastAnswer, Answers, Issued, OnTrack, Undisturbed, Extended, RoleRun,
           RoleSucceeds, RoleSteps, ExamAborts, ExamSteps, StagesOf, WithRevision, VerdictOk;
      OwnEntries(plan);
      AbortIsOk(plan);
      var ok := PersistAndRequire(plan.preflight);
      if !ok { return Abort; }
      ghost var local1 := local;
      OnTrackRole(plan.prompt, calls);
      ok := Execute(plan.prompt);
      if !ok { return Abort; }
      ok := RecordArtifact(plan.promptArtifact);
      if !ok { return Abort; }
      ExtendedTwice(old(local), local1, local, [], [plan.promptArtifact], [Issued(plan.preflight)], []);
      ghost var local2 := local;
      OnTrackRole(plan.executor, calls);
      ok := Execute(plan.executor);
      if !ok || plan.policyViolated { return Abort; }
      verdict := Examine(plan);
      if verdict != Abort {
        ExtendedTwice(old(local), local2, local, [] + [plan.promptArtifact], StagesOf(plan),
                      [Issued(plan.preflight)] + [], []);
        ghost var prompt := RoleRun(plan.prompt, admits, old(calls) + 2);
        ghost var executor := RoleRun(plan.executor, admits, prompt.next + 1);
        StepsAppend(old(recorded), prompt.steps, executor.steps, ExamSteps(plan, admits, executor.next));
        assert [] + [plan.promptArtifact] == [plan.promptArtifact];
        assert [Issued(plan.preflight)] + [] + [] == [Issued(plan.preflight)];
      }
    }

    lemma UndisturbedRoleHere(role: Role, n: nat)
      ensures Undisturbed() ==> RoleRun(role, admits, n).ok == RoleSucceeds(role)
    {
      hide RoleRun, RoleSucceeds, RoleSteps;
      if Undisturbed() { UndisturbedRole(role, admits, n); }
    }

    lemma OnTrackRole(role: Role, n: nat)
      ensures OnTrack() ==> RoleRun(role, admits, n).ok == RoleSucceeds(role)
    {
      hide RoleRun, RoleSucceeds, RoleSteps;
      UndisturbedRoleHere(role, n);
    }

    /** Review and test. */
    method Examine(plan: Plan) returns (verdict: Verdict)
      requires Traced() && log != [] && InStep() && unpushed == {} && produced <= Own(plan) && buffer.Some?
      modifies this`calls, this`local, this`buffer, this`latestRevision, this`produced, this`unpushed,
               this`log, this`saves, this`recorded, store
      ensures Traced() && log != [] && saves == old(saves) && buffer.Some?
      ensures verdict != Abort ==> InStep() && unpushed == {}
      ensures produced <= Own(plan)
      ensures VerdictOk(plan, verdict)
      ensures verdict != Abort ==>
                recorded == old(recorded) + ExamSteps(plan, admits, old(calls)) &&
                Extended(old(local), local, StagesOf(plan), [])
      ensures old(OnTrack()) ==>
                (verdict == Abort <==> ExamAborts(plan)) && (verdict != Abort ==> OnTrack())
    {
      hide Traced, InStep, Own, OnTrack, Undisturbed, Extended, RoleRun, RoleSucceeds, RoleSteps;
      OwnEntries(plan);
      ExtendedByNothing(local);
      ghost var steps, n := [], calls;
      if plan.review.Some? {
        OnTrackRole(plan.review.value.role, calls);
        var ok := Execute(plan.review.value.role);
        if !ok { return Abort; }
        steps, n := RoleRun(plan.review.value.role, admits, n).steps, calls;
        if !plan.review.value.approved || plan.review.value.blockingIssues > 0 { return Reject("review_rejected"); }
      }
      if plan.testing.Some? {
        OnTrackRole(plan.testing.value.role, calls);
        var ok := Execute(plan.testing.value.role);
        if !ok { return Abort; }
        StepsAppend(old(recorded), steps, RoleRun(plan.testing.value.role, admits, n).steps, []);
        var passed := plan.testing.value.passed && plan.testing.value.failures == 0;
        if passed && plan.testing.value.checksMissing { return Abort; }
        ok := RecordStages(plan.testing.value.stages);
        if !ok { return Abort; }
        if !passed { return Reject("test_failed"); }
      }
      verdict := if plan.evidenceMissing then Abort else Proceed;
    }

    method GitLifecycle(writes: seq<GitWrite>) returns (ok: bool)
      requires Traced() && log != [] && InStep() && unpushed == {}
      modifies this`calls, this`local, this`produced, this`unpushed, this`log, store
      ensures Traced() && log != []
      ensures ok ==> InStep() && unpushed == {}
      ensures produced <= old(produced) + GitItems(writes)
      ensures ok ==> Extended(old(local), local, GitArtifacts(writes), GitPolicies(writes))
      ensures old(OnTrack()) ==> ok && OnTrack()
    {
      hide Traced, InStep, Pushed, LastAnswer, Answers, OnTrack, Undisturbed, Extended, WithRevision, GitItems;
      ExtendedByNothing(local);
      assert writes[..0] == [];
      for k := 0 to |writes|
        invariant Traced() && log != [] && InStep() && unpushed == {}
        invariant produced <= old(produced) + GitItems(writes)
        invariant Extended(old(local), local, GitArtifacts(writes[..k]), GitPolicies(writes[..k]))
        invariant old(OnTrack()) ==> OnTrack()
      {
        GitItemIn(writes, k);
        ghost var before := local;
        assert writes[..k + 1][..k] == writes[..k];
        match writes[k] {
          case GitArtifact(a) => ok := RecordArtifact(a);
          case GitPolicy(d) => ok := PersistAndRequire(d);
        }
        if !ok {
          return;
        }
        match writes[k] {
          case GitArtifact(a) =>
            ExtendedTwice(old(local), before, local, GitArtifacts(writes[..k]), [a], GitPolicies(writes[..k]), []);
          case GitPolicy(d) =>
            ExtendedTwice(old(local), before, local, GitArtifacts(writes[..k]), [],
                          GitPolicies(writes[..k]), [Issued(d)]);
        }
      }
      assert writes[..|writes|] == writes;
      ok := true;
    }

    /** The two summaries enter the working copy only after both are in the store. */
    method RecordSummaries(a: Artifact, b: Artifact) returns (ok: bool)
      requires Traced() && log != [] && InStep() && unpushed == {}
      modifies this`calls, this`local, this`produced, this`unpushed, this`log, store
      ensures Traced() && log != []
      ensures ok ==> InStep() && unpushed == {}
      ensures produced <= old(produced) + {ArtifactItem(a), ArtifactItem(b)}
      ensures ok ==> Extended(old(local), local, [a, b], [])
      ensures old(OnTrack()) ==> ok && OnTrack()
    {
      hide InStep, Record, ChangeFor, OnTrack, Undisturbed, Items, Faithful, Saves, StepsSince, Anchored;
      ok := Write(ArtifactItem(a));
      if !ok { return; }
      ok := Write(ArtifactItem(b));
      if !ok { return; }
      Push(ArtifactItem(a));
      Push(ArtifactItem(b));
    }

    method Finish(plan: Plan) returns (result: Result)
      requires Traced() && log != [] && InStep() && unpushed == {}
      requires produced <= Own(plan) && saves == [] && buffer.Some?
      modifies this`calls, this`local, this`buffer, this`latestRevision, this`produced, this`unpushed, this`flushRaised,
               this`log, this`saves, this`recorded, store
      ensures Traced() && log != [] && flushRaised == old(flushRaised) && produced <= Own(plan)
      ensures Saved(result) && recorded == old(recorded)
      ensures result != Threw ==>
                && |saves| == 1 && CompletesFrom(plan, old(local), saves[0].after)
                && result == if plan.gitPending then ApprovalPending else Completed
      ensures old(OnTrack()) ==> (result == Threw <==> plan.gitThrows)
    {
      hide Traced, InStep, Own, Leaves, OnTrack, Extended, CompletesFrom, CompletedIn, Settled, Items;
      NothingLeft();
      Complete(plan.taskId);
      ghost var done := local;
      var ok := Publish(plan);
      if !ok { return Threw; }
      ghost var finished := local;
      FlushToState();
      ghost var flushed := local;
      ok := SaveOnce();
      if !ok { return Threw; }
      SavedAlike();
      CompletionComposes(plan, old(local), done, finished, flushed, saves[0].after);
      result := if plan.gitPending then ApprovalPending else Completed;
    }

    /** The summaries, the git lifecycle and the postflight decision. */
    method Publish(plan: Plan) returns (ok: bool)
      requires Traced() && log != [] && InStep() && unpushed == {} && produced <= Own(plan)
      modifies this`calls, this`local, this`produced, this`unpushed, this`log, store
      ensures Traced() && log != [] && produced <= Own(plan)
      ensures ok ==> InStep() && Settled() && unpushed == {}
      ensures ok ==> Extended(old(local), local, [plan.taskSummary, plan.runSummary] + GitArtifacts(plan.git),
                              GitPolicies(plan.git) + [Issued(plan.postflight)])
      ensures old(OnTrack()) ==> (ok <==> !plan.gitThrows) && (ok ==> OnTrack())
    {
      hide Traced, InStep, Own, LastAnswer, Answers, Issued, Settled, OnTrack, Extended, GitArtifacts, GitPolicies;
      OwnEntries(plan);
      ok := RecordSummaries(plan.taskSummary, plan.runSummary);
      if !ok { return; }
      ghost var summed := local;
      ok := GitLifecycle(plan.git);
      ok := ok && !plan.gitThrows;
      if !ok { return; }
      ghost var published, summaries := local, [plan.taskSummary, plan.runSummary];
      ExtendedTwice(old(local), summed, published, summaries, GitArtifacts(plan.git), [], GitPolicies(plan.git));
      ok := PersistAndRequire(plan.postflight);
      if !ok { return; }
      assert [] + GitPolicies(plan.git) == GitPolicies(plan.git);
      ExtendedTwice(old(local), published, local, summaries + GitArtifacts(plan.git), [],
                    GitPolicies(plan.git), [Issued(plan.postflight)]);
      assert summaries + GitArtifacts(plan.git) + [] == summaries + GitArtifacts(plan.git);
    }

    lemma SavedAlike()
      ensures Saved(Completed) ==> Saved(Handled) && Saved(ApprovalPending)
    {
    }

    method Complete(taskId: Id)
      modifies this`local
      ensures CompletedIn(old(local), local, taskId)
      ensures old(InStep()) ==> InStep()
      ensures old(Traced()) ==> Traced()
      ensures old(OnTrack()) ==> OnTrack()
    {
      hide Items, Faithful, Saves, StepsSince, Anchored;
      var next := local.(tasks := local.tasks[taskId := "done"], activeTask := None);
      if taskId !in next.completed {
        next := next.(completed := next.completed + [taskId]);
      }
      ItemsIgnoreTheRest(local, next);
      local := next;
    }

    method SetStatus(taskId: Id, status: string)
      modifies this`local
      ensures local == old(local).(tasks := old(local).tasks[taskId := status])
      ensures old(InStep()) ==> InStep()
      ensures old(Traced()) ==> Traced()
      ensures old(OnTrack()) ==> OnTrack()
    {
      hide Items, Faithful, Saves, StepsSince, Anchored;
      ItemsIgnoreTheRest(local, local.(tasks := local.tasks[taskId := status]));
      local := local.(tasks := local.tasks[taskId := status]);
    }

    method NoteRetry(taskId: Id)
      modifies this`local
      ensures local == old(local).(
                retryCounts := old(local).retryCounts[taskId := RetryCount(store.state, taskId)], activeTask := None)
      ensures old(InStep()) ==> InStep()
      ensures old(Settled()) ==> Settled()
      ensures old(Traced()) ==> Traced()
      ensures old(OnTrack()) ==> OnTrack()
    {
      hide Items, Faithful, Saves, StepsSince, Anchored;
      var next := local.(
        retryCounts := local.retryCounts[taskId := RetryCount(store.state, taskId)], activeTask := None);
      ItemsIgnoreTheRest(local, next);
      local := next;
    }

    method NoteFailure(f: Failure) returns (ok: bool)
      requires Traced() && log != [] && InStep() && unpushed == {} && buffer.Some?
      modifies this`calls, this`local, this`buffer, this`latestRevision, this`produced, this`unpushed, this`flushRaised,
               this`log, store
      ensures Traced() && log != []
      ensures ok ==> InStep() && unpushed == {} && buffer == Some([])
      ensures produced <= old(produced) + {FailureItem(f)} && flushRaised == old(flushRaised)
      ensures ok ==> FailureIn(old(local), local, f, RetryCount(store.state, f.taskId))
      ensures ok ==> Counted(log, f, RetryCount(store.state, f.taskId))
      ensures old(OnTrack()) && f.taskId in initial.tasks ==> ok && OnTrack()
    {
      hide InStep, OnTrack, Undisturbed, Settled, Items, Faithful, Saves, StepsSince, Anchored;
      ok := Write(FailureItem(f));
      if !ok { return; }
      CountsItself(f);
      Push(FailureItem(f));
      NoteRetry(f.taskId);
      FlushToState();
    }

    /** The access just made recorded a failure. */
    lemma CountsItself(f: Failure)
      requires Traced() && log != []
      requires log[|log| - 1].act.Wrote? && log[|log| - 1].act.item == FailureItem(f)
      requires Record(log[|log| - 1].before, AddFailure(f), Some(log[|log| - 1].act.expected)).1.Committed?
      ensures Counted(log, f, RetryCount(store.state, f.taskId))
    {
      hide Items, Saves, StepsSince, Anchored;
      var a := log[|log| - 1];
      assert a.after == store.state && a.after == After(a.before, a.act);
      assert CountedAt(a, f, RetryCount(store.state, f.taskId));
    }

    /** Retry, split or block: the failure is recorded first, the save comes last. */
    method HandleFailure(plan: Plan, reason: string) returns (result: Result, ghost retries: nat)
      requires Traced() && log != [] && InStep() && unpushed == {}
      requires produced <= Own(plan) && saves == [] && buffer.Some?
      requires Failure(plan.taskId, reason) == TheFailure(plan)
      modifies this`calls, this`local, this`buffer, this`latestRevision, this`produced, this`unpushed, this`flushRaised,
               this`log, this`saves, this`recorded, store
      ensures Traced() && log != [] && flushRaised == old(flushRaised) && produced <= Own(plan)
      ensures Saved(result) && recorded == old(recorded)
      ensures result != Threw ==>
                && |saves| == 1 && FailsFrom(plan, old(local), saves[0].after, retries)
                && Counted(log, TheFailure(plan), retries) && result == Handled
      ensures old(OnTrack()) && plan.taskId in initial.tasks ==> result != Threw
    {
      hide Traced, InStep, Own, Pushed, Settled, Leaves, OnTrack, Undisturbed, FailureIn, Counted, FailsFrom, Extended,
           Faithful, Items, RetryCount;
      retries := 0;
      OwnEntries(plan);
      NothingLeft();
      var ok := NoteFailure(Failure(plan.taskId, reason));
      if !ok { return Threw, 0; }
      retries := RetryCount(store.state, plan.taskId);
      ghost var noted, history := local, log;
      ok := TakeAction(plan);
      if !ok { return Threw, retries; }
      ghost var acted, history' := local, log;
      ok := SaveOnce();
      if !ok { return Threw, retries; }
      SavedAlike();
      CountedGrows(history, history', TheFailure(plan), retries);
      CountedGrows(history', log, TheFailure(plan), retries);
      FailureComposes(plan, old(local), noted, acted, saves[0].after, retries);
      result := Handled;
    }

    /** What becomes of the task, and the report on it. */
    method TakeAction(plan: Plan) returns (ok: bool)
      requires Traced() && log != [] && InStep() && unpushed == {} && produced <= Own(plan) && buffer == Some([])
      modifies this`calls, this`local, this`produced, this`unpushed, this`log, store
      ensures Traced() && log != [] && produced <= Own(plan) && old(log) <= log
      ensures ok ==> InStep() && unpushed == {} && ActedIn(old(local), local, plan)
      ensures old(OnTrack()) ==> ok && OnTrack()
    {
      hide Traced, InStep, Own, Settled, OnTrack, Undisturbed;
      OwnEntries(plan);
      ok := true;
      match plan.action {
        case Retry =>
        case Split(report, decision) =>
          SetStatus(plan.taskId, "superseded");
          Push(ArtifactItem(report));
          Push(DecisionItem(decision));
        case Block(report) =>
          SetStatus(plan.taskId, "blocked");
          ok := PushAndRecord(report);
      }
    }

    /** The work, and what its verdict leads to; `mid` is the copy after the work. */
    method Conduct(plan: Plan) returns (result: Result, ghost mid: Project, ghost retries: nat)
      requires Traced() && log != [] && InStep() && unpushed == {}
      requires produced <= Own(plan) && saves == [] && buffer.Some?
      modifies this`calls, this`local, this`buffer, this`latestRevision, this`produced, this`unpushed, this`flushRaised,
               this`log, this`saves, this`recorded, store
      ensures Traced() && log != [] && flushRaised == old(flushRaised) && produced <= Own(plan)
      ensures Saved(result)
      ensures result != Threw ==>
                && |saves| == 1
                && Extended(old(local), mid, [plan.promptArtifact] + StagesOf(plan), [Issued(plan.preflight)])
                && recorded == old(recorded) + WorkSteps(plan, admits, old(calls))
                && ConcludesFrom(plan, log, mid, saves[0].after, retries, result)
      ensures old(OnTrack()) && plan.taskId in initial.tasks ==>
                (result == Threw <==> WorkAborts(plan) || (!Rejected(plan) && plan.gitThrows))
    {
      hide Traced, InStep, Own, Leaves, OnTrack, Undisturbed, WorkAborts, Extended, WorkSteps, CompletesFrom, FailsFrom,
           Counted, Rejected, Issued, StagesOf;
      result, mid, retries := Threw, local, 0;
      NothingLeft();
      var verdict := Work(plan);
      mid := local;
      match verdict {
        case Abort =>
        case Reject(reason) => result, retries := HandleFailure(plan, reason);
        case Proceed => result := Finish(plan);
      }
    }

    lemma NothingLeft()
      ensures forall lost, steps :: Leaves(Threw, [], lost, steps)
    {
    }

    /**
     * What a run leaves behind: no save if it threw, else exactly one. Of the entries its direct predecessor held
     * the saved snapshot lacks those that were overlooked, less the run's own; of the predecessor's run steps it
     * keeps those that were loaded or that the run has recorded since it started, and no other.
     */
    ghost predicate Saved(result: Result)
      reads this
    {
      Leaves(result, saves, overlooked - produced, loaded.runSteps + recorded)
    }

    method SaveOnce() returns (ok: bool)
      requires Traced() && log != [] && InStep() && unpushed == {} && saves == [] && buffer == Some([])
      modifies this`calls, this`local, this`saves, this`log, this`recorded, store
      ensures Traced() && log != [] && old(log) <= log && recorded == old(recorded)
      ensures Saved(if ok then Completed else Threw)
      ensures ok ==> |saves| == 1 && SameContents(old(local), saves[0].after)
      ensures old(OnTrack()) ==> ok
    {
      hide Items, Faithful, Saves, StepsSince, Anchored, OnTrack, Undisturbed;
      assert local.runSteps + [] == local.runSteps;
      ok := Save();
    }

    /** The cost summary is recorded whatever happened; a failure to do so is ignored. */
    method RecordCostSummary(a: Artifact)
      requires Traced() && log != []
      modifies this`calls, this`local, this`buffer, this`log, store
      ensures Traced() && |log| == |old(log)| + 1 && old(log) <= log
      ensures log[|log| - 1].act == if admits(|old(log)|) then Wrote(ArtifactItem(a), old(local.revision)) else Looked
      ensures buffer == None && local == Pushed(WithRevision(old(local), local.revision), ArtifactItem(a))
    {
      hide Items, Interfered, Faithful, Saves, StepsSince, Anchored;
      var held := RequireLease();
      if held {
        ghost var before := store.state;
        var outcome := store.RecordArtifact(a, Some(local.revision));
        NoteWrite(before, ArtifactItem(a), local.revision);
        if outcome.Committed? {
          local := WithRevision(local, outcome.revision);
        }
      } else {
        NoteLook();
      }
      local := local.(artifacts := local.artifacts + [a]);
      buffer := None;
    }

    /**
     * A run from a fresh runner. The history of its accesses is that of the store (`Traced`), and in it the run saves
     * at most once, and unless it throws exactly once (`Saved`). For a forced task, or when the adopted revision is
     * the loaded one, nothing is overlooked, so no entry of the direct predecessor is lost. The flush never raises
     * the revision. Review and tests alone decide whether a run that does not throw completes its task or handles a
     * failure, and with what snapshot (`Concluded`); undisturbed, it throws exactly if the plan itself does.
     */
    method Run(plan: Plan) returns (result: Result)
      requires Ready()
      modifies this, store
      ensures Traced() && Saved(result) && !flushRaised
      ensures overlooked == Items(adopted) - Items(loaded)
      ensures plan.selection.None? ==> adopted == loaded
      ensures result != Threw ==> Found(log, AdoptionAt(plan.selection, admits), adopted)
      ensures adopted.revision == loaded.revision ==> overlooked == {}
      ensures produced <= Own(plan)
      ensures result != Threw ==> |saves| == 1 && Concluded(plan, log, loaded, saves[0].after, result)
      ensures result != Threw ==> recorded == WorkSteps(plan, admits, StartAt(plan.selection, admits))
      ensures Undisturbed() && plan.taskId in initial.tasks ==> (result == Threw <==> Throws(plan))
      ensures result != Threw ==> started == StartAt(plan.selection, admits)
      ensures started > 0 ==>
                && buffer == None && log != [] && EndsWithArtifact(local.artifacts, plan.costSummary)
                && SummaryTried(log[|log| - 1], admits(|log| - 1), plan.costSummary)
    {
      hide Traced, Items, InStep, Own, Found, AdoptionAt, Leaves, OnTrack, Undisturbed, WorkAborts, Extended,
           WorkSteps, StartAt, Concluded, ConcludesFrom, RoleSucceeds, Rejected, StartedFrom;
      result := Threw;
      NothingLeft();
      var ok := Begin(plan);
      if !ok {
        return;
      }
      ghost var started := local;
      ghost var mid, retries;
      result, mid, retries := Conduct(plan);
      ghost var history := log;
      RecordCostSummary(plan.costSummary);
      FoundAdopted();
      if result != Threw {
        RunConcludes(plan, loaded, started, mid, saves[0].after, history, log, retries, result);
        assert [] + WorkSteps(plan, admits, StartAt(plan.selection, admits))
            == WorkSteps(plan, admits, StartAt(plan.selection, admits));
      }
    }

    /** From the load to the start of the run as such. */
    method Begin(plan: Plan) returns (ok: bool)
      requires Ready()
      modifies this, store
      ensures Traced() && log != [] && saves == [] && !flushRaised && produced <= Own(plan)
      ensures overlooked == Items(adopted) - Items(loaded)
      ensures plan.selection.None? ==> adopted == loaded
      ensures adopted.revision == loaded.revision ==> overlooked == {}
      ensures ok ==> adoptedAt == AdoptionAt(plan.selection, admits) && calls == StartAt(plan.selection, admits)
      ensures ok ==> InStep() && unpushed == {} && buffer.Some? && recorded == [] && StartedFrom(plan, loaded, local)
      ensures started == if ok then StartAt(plan.selection, admits) else 0
      ensures Undisturbed() ==> (ok <==> (plan.selection.Some? ==> RoleSucceeds(plan.selection.value)))
      ensures Undisturbed() && ok ==> OnTrack()
    {
      hide Traced, Items, InStep, Own, AdoptionAt, OnTrack, Undisturbed, RoleSucceeds;
      ok := Load(plan.selection);
      if !ok {
        return;
      }
      ok := Prepare(plan);
      if !ok {
        return;
      }
      StartRun(plan.taskId);
    }

    lemma FoundAdopted()
      requires Traced() && log != []
      ensures Found(log, adoptedAt, adopted)
    {
    }
  }

  ghost predicate Leaves(result: Result, saves: seq<Access>, lost: set<Item>, steps: seq<RunStep>) {
    if result == Threw then saves == [] else |saves| == 1 && Lacks(saves[0], lost, steps)
  }

  /** The snapshot saved lacks exactly `lost` of its direct predecessor's entries, and holds exactly these run steps. */
  ghost predicate Lacks(save: Access, lost: set<Item>, steps: seq<RunStep>) {
    Items(save.before) - Items(save.after) == lost && save.after.runSteps == steps
  }

  /** The steps of the working copy and of the buffer are those loaded and those recorded since the run started. */
  predicate StepsKept(buffer: Option<seq<RunStep>>, copy: seq<RunStep>, loaded: seq<RunStep>, recorded: seq<RunStep>) {
    if buffer.None? then copy == loaded else copy + buffer.value == loaded + recorded
  }

  /** The recorded steps grow by those of `ran`, and outcome and access count are its. */
  predicate Follows(before: seq<RunStep>, ran: Ran, after: seq<RunStep>, ok: bool, calls: nat) {
    after == before + ran.steps && ok == ran.ok && calls == ran.next
  }

  lemma FollowsThen(before: seq<RunStep>, first: Ran, second: Ran, after: seq<RunStep>, ok: bool, calls: nat)
    requires Follows(before + first.steps, second, after, ok, calls)
    ensures Follows(before, Then(first, second), after, ok, calls)
  {
  }

  lemma OneStepMore(
      copy: seq<RunStep>, buffer: seq<RunStep>, loaded: seq<RunStep>, recorded: seq<RunStep>, step: RunStep)
    requires copy + buffer == loaded + recorded
    ensures copy + (buffer + [step]) == loaded + (recorded + [step])
  {
    assert copy + (buffer + [step]) == copy + buffer + [step];
  }

  lemma NothingLost(before: set<Item>, after: set<Item>, produced: set<Item>)
    requires before - after == {} - produced
    ensures before <= after
  {
    forall x | x in before ensures x in after {
      assert x !in before - after;
    }
  }

  /** One cycle of the orchestrator on a store: a fresh runner and its run. */
  method RunCycle(store: InMemoryStateStore, foreign: nat -> seq<ForeignMove>, admits: nat -> bool, plan: Plan)
    returns (runner: TaskRunner, result: Result)
    modifies store
    ensures fresh(runner) && runner.store == store && runner.initial == old(store.state)
    ensures runner.Traced() && runner.Saved(result)
    ensures runner.overlooked == Items(runner.adopted) - Items(runner.loaded) && runner.produced <= Own(plan)
    ensures result != Threw ==>
              && Found(runner.log, AdoptionAt(plan.selection, admits), runner.adopted)
              && |runner.saves| == 1 && Concluded(plan, runner.log, runner.loaded, runner.saves[0].after, result)
              && runner.recorded == WorkSteps(plan, admits, StartAt(plan.selection, admits))
    ensures (forall n :: foreign(n) == [] && admits(n)) && plan.taskId in old(store.state.tasks) ==>
              (result == Threw <==> Throws(plan))
    ensures result != Threw && plan.selection.None? ==>
              var a := runner.saves[0];
              && Items(a.before) <= Items(a.after)
              && forall x | x in a.before.runSteps ::
                   x in a.after.runSteps <==> x in runner.loaded.runSteps || x in runner.recorded
  {
    hide Items, Own, Faithful, Saves, StepsSince, RoleRun, Concluded, WorkSteps, Throws;
    runner := new TaskRunner(store, foreign, admits);
    result := runner.Run(plan);
    if result != Threw && plan.selection.None? {
      NothingLost(Items(runner.saves[0].before), Items(runner.saves[0].after), runner.produced);
    }
  }

  /**
   * Without that hypothesis an append is lost: another client's artifact arrives between the load and the adoption
   * of its revision, and the save goes through without it.
   */
  lemma SelectedRunCanLoseArtifact(loaded: Project, a: Artifact)
    requires !HasArtifact(loaded, a.id)
    ensures var adopted := Record(loaded, AddArtifact(a), None).0;
            var (saved, outcome) := Swap(adopted, WithRevision(loaded, adopted.revision), Some(adopted.revision));
            outcome.Committed? && ArtifactItem(a) in Items(adopted) - Items(saved)
  {
    var adopted := Record(loaded, AddArtifact(a), None).0;
    PushedItems(loaded, ArtifactItem(a));
    ItemsIgnoreTheRest(adopted, Pushed(loaded, ArtifactItem(a)));
    forall x | x in loaded.artifacts ensures x != a {
      var k :| 0 <= k < |loaded.artifacts| && loaded.artifacts[k] == x;
    }
    var saved := Swap(adopted, WithRevision(loaded, adopted.revision), Some(adopted.revision)).0;
    ItemsIgnoreTheRest(saved, loaded);
  }

  /**
   * A run step moves no revision, so a foreign one can be lost from the snapshot even by a forced run. `Saved` says
   * exactly which steps survive.
   */
  lemma ForeignStepCanBeLost(loaded: Project, step: RunStep)
    requires step !in loaded.runSteps
    ensures var s := Interfered(loaded, [AppendStep(step)]);
            var (saved, outcome) := Swap(s, loaded, Some(loaded.revision));
            outcome.Committed? && step in s.runSteps && step !in saved.runSteps
  {
    assert [AppendStep(step)][..0] == [];
    assert Interfered(loaded, [AppendStep(step)]) == Moved(loaded, AppendStep(step));
  }
}
