/** The hash chain over the steps of a run: how it is recorded, and what its verification establishes. */
module EvidenceChain {
  import opened Options
  import opened Sorting

  /** What a step records beside the hashed fields. */
  datatype Body = Body(
    taskId: Option<string>, role: string, tool: Option<string>, input: string, output: string, durationMs: nat)

  datatype Step = Step(
    id: string, tenantId: string, projectId: string, runId: string, stepId: string, attempt: nat, status: string,
    policyDecisionId: Option<string>, idempotencyKey: string, createdAt: int, payloadRef: Option<string>,
    prevChecksum: Option<string>, traceId: string, checksum: string, body: Body)

  datatype HashInput = HashInput(
    evidenceId: string, tenantId: string, projectId: string, runId: string, stepId: string, attempt: nat,
    status: string,
    policyDecisionId: Option<string>, idempotencyKey: string, createdAt: int, payloadRef: Option<string>,
    prevChecksum: Option<string>, traceId: string)

  /** A checksum, SHA-256 over the canonical text of the hash input, is never empty. Collisions are not ruled out. */
  ghost predicate NeverEmpty(h: HashInput -> string) {
    forall x :: h(x) != ""
  }

  /** An empty string counts as an absent field. */
  function Present(field: Option<string>): Option<string> {
    if field == Some("") then None else field
  }

  function Hashed(s: Step): HashInput {
    HashInput(s.id, s.tenantId, s.projectId, s.runId, s.stepId, s.attempt, s.status, Present(s.policyDecisionId),
              s.idempotencyKey, s.createdAt, Present(s.payloadRef), Present(s.prevChecksum), s.traceId)
  }

  predicate Older(a: Step, b: Step) {
    a.createdAt <= b.createdAt
  }

  function InOrder(steps: seq<Step>): (r: seq<Step>)
    ensures |r| == |steps|
  {
    SortPermutes(Older, steps);
    Sort(Older, steps)
  }

  lemma InOrderPermutes(steps: seq<Step>)
    ensures multiset(InOrder(steps)) == multiset(steps)
  {
    SortPermutes(Older, steps);
  }

  datatype Issue = ChecksumMismatch(id: string) | ChainMismatch(id: string)

  /** The issues of a step that comes after one with checksum `prev` (empty for none). */
  function StepIssues(h: HashInput -> string, s: Step, prev: string): seq<Issue> {
    (if s.checksum != h(Hashed(s)) then [ChecksumMismatch(s.id)] else []) +
    (if prev != "" && s.prevChecksum != Some(prev) then [ChainMismatch(s.id)] else [])
  }

  function Issues(h: HashInput -> string, steps: seq<Step>, prev: string): seq<Issue> {
    if steps == [] then [] else StepIssues(h, steps[0], prev) + Issues(h, steps[1..], steps[0].checksum)
  }

  /** The two checks of one step. */
  method CheckStep(h: HashInput -> string, s: Step, prev: string, issues: seq<Issue>) returns (more: seq<Issue>)
    ensures more == issues + StepIssues(h, s, prev)
  {
    more := issues;
    if s.checksum != h(Hashed(s)) {
      more := more + [ChecksumMismatch(s.id)];
    }
    if prev != "" && s.prevChecksum != Some(prev) {
      more := more + [ChainMismatch(s.id)];
    }
  }

  method VerifyRunStepEvidenceChain(h: HashInput -> string, steps: seq<Step>) returns (issues: seq<Issue>)
    ensures issues == Issues(h, InOrder(steps), "")
  {
    hide InOrder, Issues, StepIssues;
    var ordered := InOrder(steps);
    var prev := "";
    issues := [];
    for k := 0 to |ordered|
      invariant issues + Issues(h, ordered[k..], prev) == Issues(h, ordered, "")
    {
      var s := ordered[k];
      IssuesFrom(h, ordered, k, prev);
      AppendAppend(issues, StepIssues(h, s, prev), Issues(h, ordered[k + 1..], s.checksum));
      issues := CheckStep(h, s, prev, issues);
      prev := s.checksum;
    }
    IssuesFrom(h, ordered, |ordered|, prev);
  }

  lemma IssuesFrom(h: HashInput -> string, steps: seq<Step>, k: nat, prev: string)
    requires k <= |steps|
    ensures steps[0..] == steps
    ensures Issues(h, steps[k..], prev) ==
      if k == |steps| then [] else StepIssues(h, steps[k], prev) + Issues(h, steps[k + 1..], steps[k].checksum)
  {
    if k < |steps| {
      assert steps[k..][0] == steps[k] && steps[k..][1..] == steps[k + 1..];
    }
  }

  lemma AppendAppend<T>(a: seq<T>, b: seq<T>, c: seq<T>)
    ensures a + (b + c) == (a + b) + c
  {
  }

  predicate BadChecksum(h: HashInput -> string, s: Step) {
    s.checksum != h(Hashed(s))
  }

  /** The k-th step does not name the checksum of the one before it, which has one. */
  predicate BadLink(steps: seq<Step>, k: nat) {
    0 < k < |steps| && steps[k - 1].checksum != "" && steps[k].prevChecksum != Some(steps[k - 1].checksum)
  }

  predicate BadStart(steps: seq<Step>, prev: string) {
    prev != "" && steps != [] && steps[0].prevChecksum != Some(prev)
  }

  lemma {:induction false} IssuesSay(h: HashInput -> string, steps: seq<Step>, prev: string, id: string)
    ensures ChecksumMismatch(id) in Issues(h, steps, prev) <==>
      exists s :: s in steps && s.id == id && BadChecksum(h, s)
    ensures ChainMismatch(id) in Issues(h, steps, prev) <==>
      (BadStart(steps, prev) && steps[0].id == id) || exists k: nat :: BadLink(steps, k) && steps[k].id == id
    decreases |steps|
  {
    hide Hashed;
    if steps != [] {
      var rest := steps[1..];
      IssuesSay(h, rest, steps[0].checksum, id);
      assert forall s :: s in steps <==> s == steps[0] || s in rest;
      LinksOfRest(steps, id);
    }
  }

  lemma LinksOfRest(steps: seq<Step>, id: string)
    requires steps != []
    ensures (exists k: nat :: BadLink(steps, k) && steps[k].id == id) <==>
      (BadStart(steps[1..], steps[0].checksum) && steps[1].id == id) ||
      exists k: nat :: BadLink(steps[1..], k) && steps[1..][k].id == id
  {
    var rest := steps[1..];
    if k: nat :| BadLink(steps, k) && steps[k].id == id {
      assert k > 1 ==> BadLink(rest, k - 1) && rest[k - 1].id == id;
    }
    if k: nat :| BadLink(rest, k) && rest[k].id == id {
      assert BadLink(steps, k + 1) && steps[k + 1].id == id;
    }
    assert BadStart(rest, steps[0].checksum) ==> BadLink(steps, 1);
  }

  /** The verification reports exactly the wrong checksums and the broken links, each as what it is. */
  lemma ReportedIff(h: HashInput -> string, steps: seq<Step>, id: string)
    ensures ChecksumMismatch(id) in Issues(h, InOrder(steps), "") <==>
      exists s :: s in steps && s.id == id && BadChecksum(h, s)
    ensures ChainMismatch(id) in Issues(h, InOrder(steps), "") <==>
      exists k: nat :: BadLink(InOrder(steps), k) && InOrder(steps)[k].id == id
  {
    hide InOrder, Issues, BadChecksum, BadLink;
    IssuesSay(h, InOrder(steps), "", id);
    InOrderPermutes(steps);
    forall s ensures s in steps <==> s in InOrder(steps) {
      assert s in multiset(steps) <==> s in multiset(InOrder(steps));
    }
  }

  /** Each step carries its own checksum and the checksum of the step before it. */
  predicate Linked(h: HashInput -> string, steps: seq<Step>) {
    && (forall i | 0 <= i < |steps| :: steps[i].checksum == h(Hashed(steps[i])))
    && (forall i | 0 < i < |steps| :: steps[i].prevChecksum == Some(steps[i - 1].checksum))
  }

  lemma {:induction false} CleanIffLinked(h: HashInput -> string, steps: seq<Step>, prev: string)
    requires NeverEmpty(h)
    ensures Issues(h, steps, prev) == []
       <==> Linked(h, steps) && (prev != "" && steps != [] ==> steps[0].prevChecksum == Some(prev))
    decreases |steps|
  {
    if steps != [] {
      var rest := steps[1..];
      CleanIffLinked(h, rest, steps[0].checksum);
      if Issues(h, steps, prev) == [] {
        assert Issues(h, rest, steps[0].checksum) == [];
        forall i | 0 < i < |steps| ensures steps[i].prevChecksum == Some(steps[i - 1].checksum) {
          assert i > 1 ==> rest[i - 1].prevChecksum == Some(rest[i - 2].checksum);
        }
        forall i | 0 <= i < |steps| ensures steps[i].checksum == h(Hashed(steps[i])) {
          assert i > 0 ==> rest[i - 1].checksum == h(Hashed(rest[i - 1]));
        }
      } else if Linked(h, steps) {
        assert Linked(h, rest);
      }
    }
  }

  /** The two steps agree on everything but the body and the stored checksum; an empty field counts as absent. */
  predicate SameEvidence(a: Step, b: Step) {
    && a.id == b.id && a.tenantId == b.tenantId && a.projectId == b.projectId && a.runId == b.runId
    && a.stepId == b.stepId && a.attempt == b.attempt && a.status == b.status
    && Present(a.policyDecisionId) == Present(b.policyDecisionId) && a.idempotencyKey == b.idempotencyKey
    && a.createdAt == b.createdAt && Present(a.payloadRef) == Present(b.payloadRef)
    && Present(a.prevChecksum) == Present(b.prevChecksum) && a.traceId == b.traceId
  }

  /** The checksum function maps the hashed fields of two different steps to one value. */
  predicate Collision(h: HashInput -> string, a: Step, b: Step) {
    Hashed(a) != Hashed(b) && h(Hashed(a)) == h(Hashed(b))
  }

  /** The step `k` places before the last one. */
  function FromEnd(steps: seq<Step>, k: nat): Step
    requires k < |steps|
  {
    steps[|steps| - 1 - k]
  }

  /** Two steps at equal distance from the end collide, at most `k` places before it. */
  predicate CollisionWithin(h: HashInput -> string, a: seq<Step>, b: seq<Step>, k: nat)
    requires k < |a| && k < |b|
  {
    Collision(h, FromEnd(a, k), FromEnd(b, k)) || (k > 0 && CollisionWithin(h, a, b, k - 1))
  }

  /**
   * Binding: two lists that verify and end in the same checksum agree on every hashed field, step by step from the
   * end, along the shorter one's length; or else two of their steps at equal distance from the end collide.
   */
  lemma ChainsAgree(h: HashInput -> string, a: seq<Step>, b: seq<Step>, k: nat)
    requires NeverEmpty(h) && k < |a| && k < |b|
    requires Issues(h, InOrder(a), "") == [] && Issues(h, InOrder(b), "") == []
    requires FromEnd(InOrder(a), 0).checksum == FromEnd(InOrder(b), 0).checksum
    ensures var x, y := FromEnd(InOrder(a), k), FromEnd(InOrder(b), k);
            (SameEvidence(x, y) && x.checksum == y.checksum) || CollisionWithin(h, InOrder(a), InOrder(b), k)
  {
    hide InOrder, Linked, Issues, Collision, CollisionWithin, FromEnd, NeverEmpty;
    CleanIffLinked(h, InOrder(a), "");
    CleanIffLinked(h, InOrder(b), "");
    LinkedAgree(h, InOrder(a), InOrder(b), k);
  }

  lemma {:induction false} LinkedAgree(h: HashInput -> string, a: seq<Step>, b: seq<Step>, k: nat)
    requires k < |a| && k < |b| && Linked(h, a) && Linked(h, b)
    requires FromEnd(a, 0).checksum == FromEnd(b, 0).checksum
    ensures var x, y := FromEnd(a, k), FromEnd(b, k);
            (Hashed(x) == Hashed(y) && x.checksum == y.checksum) || CollisionWithin(h, a, b, k)
    decreases k
  {
    hide Hashed;
    if k > 0 {
      LinkedAgree(h, a, b, k - 1);
      var x, y := a[|a| - k], b[|b| - k];
      assert x.prevChecksum == Some(FromEnd(a, k).checksum) && y.prevChecksum == Some(FromEnd(b, k).checksum);
      SamePrevious(x, y);
    }
  }

  lemma SamePrevious(x: Step, y: Step)
    requires x.prevChecksum.Some? && y.prevChecksum.Some?
    ensures Hashed(x) == Hashed(y) ==> x.prevChecksum == y.prevChecksum
  {
    assert Hashed(x) == Hashed(y) ==> Present(x.prevChecksum) == Present(y.prevChecksum);
  }

  // ----- Recording -----

  datatype StepInput = StepInput(id: string, runId: string, status: string, createdAt: int, body: Body)

  datatype Scope = Scope(tenantId: string, projectId: string)

  /** The checksum of the last step of each run since its start, and the log of the store. */
  datatype RecorderState = RecorderState(checksums: map<string, string>, log: seq<Step>)

  /** The step as the recorder builds it, and as the append fills in its checksum. */
  function MakeStep(h: HashInput -> string, scope: Scope, checksums: map<string, string>, x: StepInput): Step {
    var prev := if x.runId in checksums then Present(Some(checksums[x.runId])) else None;
    var s := Step(x.id, scope.tenantId, scope.projectId, x.runId, x.id, 0, x.status, None, x.runId + ":" + x.id + ":0",
                  x.createdAt, None, prev, x.runId, "", x.body);
    s.(checksum := h(Hashed(s)))
  }

  /** A recording, under the scope that the recorder resolved for it. */
  datatype Event = Start(runId: string) | Record(input: StepInput, scope: Scope)

  function After(h: HashInput -> string, s: RecorderState, e: Event): RecorderState {
    match e
    case Start(r) => s.(checksums := s.checksums - {r})
    case Record(x, scope) =>
      var step := MakeStep(h, scope, s.checksums, x);
      RecorderState(s.checksums[x.runId := step.checksum], s.log + [step])
  }

  /** The step has the fields of its input, the scope it was recorded under, and the keys derived from them. */
  predicate Carries(s: Step, x: StepInput, scope: Scope) {
    && s.id == s.stepId == x.id && s.runId == s.traceId == x.runId && s.status == x.status
    && s.createdAt == x.createdAt && s.body == x.body
    && s.tenantId == scope.tenantId && s.projectId == scope.projectId
    && s.attempt == 0 && s.idempotencyKey == x.runId + ":" + x.id + ":0"
    && s.policyDecisionId == None && s.payloadRef == None
  }

  class RunStepRecorder {
    const h: HashInput -> string
    var checksumByRunId: map<string, string>
    var log: seq<Step>
    var buffer: Option<seq<Step>>
    var latestRevision: Option<nat>
    var evidenceScope: Scope

    function State(): RecorderState
      reads this
    {
      RecorderState(checksumByRunId, log)
    }

    constructor (h: HashInput -> string)
      ensures State() == RecorderState(map[], []) && buffer == None && latestRevision == None && this.h == h
      ensures evidenceScope == Scope("default-org", "ai-orchestrator")
    {
      this.h, checksumByRunId, log, buffer, latestRevision := h, map[], [], None, None;
      evidenceScope := Scope("default-org", "ai-orchestrator");
    }

    method StartRun(runId: string, scope: Scope)
      modifies this
      ensures State() == After(h, old(State()), Start(runId))
      ensures buffer == Some([]) && latestRevision == None && evidenceScope == scope
    {
      checksumByRunId := checksumByRunId - {runId};
      evidenceScope := scope;
      buffer := Some([]);
      latestRevision := None;
    }

    /** Outside a run the scope is that of the stored state. */
    method ResolveEvidenceScope(stored: Scope) returns (scope: Scope)
      ensures scope == if buffer.Some? then evidenceScope else stored
    {
      scope := if buffer.Some? then evidenceScope else stored;
    }

    /** `accepted` is the revision the store returns; a store that refuses makes the call throw, and nothing changes. */
    method RecordStep(x: StepInput, stored: Scope, accepted: Option<nat>) returns (step: Option<Step>)
      modifies this
      ensures evidenceScope == old(evidenceScope)
      ensures if accepted.Some? then
                && State() == After(h, old(State()), Record(x, if old(buffer).Some? then evidenceScope else stored))
                && step == Some(log[|log| - 1])
                && Carries(step.value, x, if old(buffer).Some? then evidenceScope else stored)
                && latestRevision == accepted
                && buffer == (if old(buffer).None? then None else Some(old(buffer).value + [step.value]))
              else
                && State() == old(State()) && buffer == old(buffer) && latestRevision == old(latestRevision)
                && step == None
    {
      var scope := ResolveEvidenceScope(stored);
      var previous := if x.runId in checksumByRunId then Some(checksumByRunId[x.runId]) else None;
      var s := Step(x.id, scope.tenantId, scope.projectId, x.runId, x.id, 0, x.status, None,
                    x.runId + ":" + x.id + ":0",
                    x.createdAt, None, Present(previous), x.runId, "", x.body);
      s := s.(checksum := h(Hashed(s)));
      if accepted.None? {
        return None;
      }
      log := log + [s];
      latestRevision := accepted;
      checksumByRunId := checksumByRunId[x.runId := s.checksum];
      if buffer.Some? {
        buffer := Some(buffer.value + [s]);
      }
      step := Some(s);
    }
  }

  /** The log is only appended to. */
  function AfterAll(h: HashInput -> string, s: RecorderState, events: seq<Event>): (s': RecorderState)
    ensures s.log <= s'.log
  {
    if events == [] then s
    else After(h, AfterAll(h, s, events[..|events| - 1]), events[|events| - 1])
  }

  function OfRun(steps: seq<Step>, r: string): seq<Step> {
    if steps == [] then []
    else OfRun(steps[..|steps| - 1], r) + if steps[|steps| - 1].runId == r then [steps[|steps| - 1]] else []
  }

  /** The steps of `r` that the events recorded, whatever the store held before. */
  function Recorded(h: HashInput -> string, s: RecorderState, events: seq<Event>, r: string): seq<Step> {
    OfRun(AfterAll(h, s, events).log[|s.log|..], r)
  }

  predicate NotRestarted(events: seq<Event>, r: string) {
    forall e | e in events :: e.Start? ==> e.runId != r
  }

  /** The clock does not go back. */
  predicate Forward(events: seq<Event>) {
    forall i, j | 0 <= i < j < |events| ::
      events[i].Record? && events[j].Record? ==> events[i].input.createdAt <= events[j].input.createdAt
  }

  predicate NoneLater(steps: seq<Step>, now: int) {
    forall x | x in steps :: x.createdAt <= now
  }

  /** The steps of `r` so far form a chain from its start, and the recorder remembers where it ends. */
  ghost predicate Chain(h: HashInput -> string, checksums: map<string, string>, steps: seq<Step>, r: string) {
    && Linked(h, steps) && Sorted(Older, steps)
    && (steps == [] ==> r !in checksums)
    && (steps != [] ==> steps[0].prevChecksum == None && r in checksums && checksums[r] == steps[|steps| - 1].checksum)
  }

  /** One more event adds its step to the run it names, and to no other. */
  lemma RecordedNext(h: HashInput -> string, s: RecorderState, events: seq<Event>, r: string)
    requires events != []
    ensures var init, e := events[..|events| - 1], events[|events| - 1];
            Recorded(h, s, events, r) == Recorded(h, s, init, r) +
              if e.Record? && e.input.runId == r
              then [MakeStep(h, e.scope, AfterAll(h, s, init).checksums, e.input)] else []
  {
    hide Hashed;
    var init, e := events[..|events| - 1], events[|events| - 1];
    var s0 := AfterAll(h, s, init);
    if e.Record? {
      var x := MakeStep(h, e.scope, s0.checksums, e.input);
      var tail := s0.log[|s.log|..];
      assert (s0.log + [x])[|s.log|..] == tail + [x];
      assert (tail + [x])[..|tail|] == tail;
    }
  }

  lemma {:induction false} RecordedBy(h: HashInput -> string, s: RecorderState, events: seq<Event>, r: string, now: int)
    requires forall e | e in events && e.Record? :: e.input.createdAt <= now
    ensures NoneLater(Recorded(h, s, events, r), now)
    decreases |events|
  {
    hide Recorded, AfterAll, Hashed;
    if events == [] {
      RecordedNothing(h, s, r);
    } else {
      RecordedBy(h, s, events[..|events| - 1], r, now);
      RecordedNext(h, s, events, r);
    }
  }

  lemma RecordedNothing(h: HashInput -> string, s: RecorderState, r: string)
    ensures Recorded(h, s, [], r) == []
  {
  }

  lemma LinkNext(h: HashInput -> string, checksums: map<string, string>, steps: seq<Step>, r: string, x: Step)
    requires NeverEmpty(h) && Chain(h, checksums, steps, r) && x.checksum == h(Hashed(x))
    requires x.prevChecksum == if r in checksums then Present(Some(checksums[r])) else None
    requires NoneLater(steps, x.createdAt)
    ensures Chain(h, checksums[r := x.checksum], steps + [x], r)
  {
    hide Hashed;
  }

  /** Whatever was recorded before its start, and whatever else in between, the steps of a run form a chain. */
  lemma {:induction false} RecorderChains(h: HashInput -> string, s: RecorderState, events: seq<Event>, r: string)
    requires NeverEmpty(h) && r !in s.checksums && NotRestarted(events, r) && Forward(events)
    ensures Chain(h, AfterAll(h, s, events).checksums, Recorded(h, s, events, r), r)
    decreases |events|
  {
    hide Hashed, Linked, Sorted, Recorded, NeverEmpty, NoneLater;
    if events == [] {
      LinkedNone(h);
      RecordedNothing(h, s, r);
    } else {
      var init, e := events[..|events| - 1], events[|events| - 1];
      RecorderChains(h, s, init, r);
      RecordedNext(h, s, events, r);
      var s0 := AfterAll(h, s, init);
      if e.Record? && e.input.runId == r {
        RecordedBy(h, s, init, r, e.input.createdAt);
        MakeStepHashes(h, e.scope, s0.checksums, e.input);
        LinkNext(h, s0.checksums, Recorded(h, s, init, r), r, MakeStep(h, e.scope, s0.checksums, e.input));
      } else {
        assert Recorded(h, s, events, r) == Recorded(h, s, init, r);
      }
    }
  }

  lemma LinkedNone(h: HashInput -> string)
    ensures Linked(h, []) && Sorted(Older, [])
  {
  }

  lemma MakeStepHashes(h: HashInput -> string, scope: Scope, checksums: map<string, string>, x: StepInput)
    ensures var s := MakeStep(h, scope, checksums, x);
            s.checksum == h(Hashed(s)) && s.runId == x.runId && s.createdAt == x.createdAt
  {
  }

  // ----- Listing -----

  lemma SortedIsInOrder(steps: seq<Step>)
    requires Sorted(Older, steps)
    ensures InOrder(steps) == steps
  {
    SortOfSorted(Older, steps);
  }

  lemma SliceLinked(h: HashInput -> string, steps: seq<Step>, i: nat, j: nat)
    requires i <= j <= |steps| && Linked(h, steps) && Sorted(Older, steps)
    ensures Linked(h, steps[i..j]) && Sorted(Older, steps[i..j])
  {
    hide Hashed;
  }

  /** Every contiguous page of the steps recorded since the start of a run verifies. */
  lemma EveryPageVerifies(h: HashInput -> string, s: RecorderState, events: seq<Event>, r: string, i: nat, j: nat)
    requires NeverEmpty(h) && r !in s.checksums && NotRestarted(events, r) && Forward(events)
    requires i <= j <= |Recorded(h, s, events, r)|
    ensures Issues(h, InOrder(Recorded(h, s, events, r)[i..j]), "") == []
  {
    hide Linked, Sorted, InOrder, Issues, NotRestarted, Forward, AfterAll, Recorded;
    var full := Recorded(h, s, events, r);
    RecorderChains(h, s, events, r);
    SliceLinked(h, full, i, j);
    SortedIsInOrder(full[i..j]);
    CleanIffLinked(h, full[i..j], "");
  }

  function Reverse<T>(s: seq<T>): (r: seq<T>)
    ensures |r| == |s| && multiset(r) == multiset(s)
    ensures forall k | 0 <= k < |s| :: r[k] == s[|s| - 1 - k]
  {
    if s == [] then []
    else
      assert s == [s[0]] + s[1..];
      Reverse(s[1..]) + [s[0]]
  }

  predicate DistinctChecksums(steps: seq<Step>) {
    forall a, b | 0 <= a < b < |steps| :: steps[a].checksum != steps[b].checksum
  }

  predicate StrictlyOlder(steps: seq<Step>) {
    forall a, b | 0 <= a < b < |steps| :: steps[a].createdAt < steps[b].createdAt
  }

  /** In a chain without repeated checksums, the successor of a step is the only one that names its checksum. */
  lemma OnlySuccessor(h: HashInput -> string, full: seq<Step>, k: nat, l: nat)
    requires NeverEmpty(h) && Linked(h, full) && DistinctChecksums(full) && k < |full| && l < |full|
    requires full[0].prevChecksum == None && full[l].prevChecksum == Some(full[k].checksum)
    ensures l == k + 1
  {
    assert full[l - 1].checksum == full[k].checksum;
  }

  /** A chain made of steps of `full` is a contiguous piece of it. */
  lemma {:induction false} ContiguousPiece(h: HashInput -> string, full: seq<Step>, v: seq<Step>, k: nat, m: nat)
    requires NeverEmpty(h) && Linked(h, full) && DistinctChecksums(full) && full != [] && full[0].prevChecksum == None
    requires Linked(h, v) && m < |v| && k < |full| && v[0] == full[k]
    requires forall x | x in v :: x in full
    ensures k + m < |full| && v[m] == full[k + m]
    decreases m
  {
    hide Hashed;
    if m > 0 {
      ContiguousPiece(h, full, v, k, m - 1);
      assert v[m] in full;
      var l :| 0 <= l < |full| && full[l] == v[m];
      OnlySuccessor(h, full, k + m - 1, l);
    }
  }

  lemma PieceIsPage(h: HashInput -> string, full: seq<Step>, v: seq<Step>, i: nat, j: nat)
    requires NeverEmpty(h) && Linked(h, full) && DistinctChecksums(full) && full != [] && full[0].prevChecksum == None
    requires i < j <= |full| && Linked(h, v) && multiset(v) == multiset(full[i..j])
    ensures v == full[i..j]
  {
    hide NeverEmpty, Linked;
    assert |v| == |multiset(v)| == |multiset(full[i..j])| == j - i;
    forall x | x in v ensures x in full[i..j] {
      assert x in multiset(v);
    }
    var k :| i <= k < j && full[k] == v[0] by {
      assert v[0] in full[i..j];
    }
    forall m | 0 <= m < |v| ensures k + m < |full| && v[m] == full[k + m] {
      ContiguousPiece(h, full, v, k, m);
    }
    var last := |v| - 1;
    assert v[last] in full[i..j];
    var l :| i <= l < j && full[l] == v[last];
    assert full[l].checksum == full[k + last].checksum;
  }

  /** A page verifies, in whatever order it is listed, exactly when sorting the listing gives the recorded order. */
  lemma PageVerifiesIffInOrder(h: HashInput -> string, full: seq<Step>, i: nat, j: nat, listing: seq<Step>)
    requires NeverEmpty(h) && Linked(h, full) && Sorted(Older, full) && DistinctChecksums(full)
    requires full != [] && full[0].prevChecksum == None && i <= j <= |full|
    requires multiset(listing) == multiset(full[i..j])
    ensures Issues(h, InOrder(listing), "") == [] <==> InOrder(listing) == full[i..j]
  {
    hide Linked, NeverEmpty, Issues, InOrder, Sorted, DistinctChecksums;
    var page, v := full[i..j], InOrder(listing);
    CleanIffLinked(h, v, "");
    SliceLinked(h, full, i, j);
    InOrderPermutes(listing);
    assert |multiset(listing)| == |multiset(page)|;
    if Linked(h, v) && i < j {
      PieceIsPage(h, full, v, i, j);
    }
  }

  /** What the store's query promises about the order of a listing; it says nothing about steps of one instant. */
  predicate NewestFirst(listing: seq<Step>) {
    forall a, b | 0 <= a < b < |listing| :: listing[a].createdAt >= listing[b].createdAt
  }

  ghost predicate NewestFirstVerifies(h: HashInput -> string, page: seq<Step>) {
    forall listing | NewestFirst(listing) && multiset(listing) == multiset(page) ::
      Issues(h, InOrder(listing), "") == []
  }

  /** All newest-first listings of a page verify exactly when no two of its steps carry the same instant. */
  lemma NewestFirstVerifiesIffStrict(h: HashInput -> string, full: seq<Step>, i: nat, j: nat)
    requires NeverEmpty(h) && Linked(h, full) && Sorted(Older, full) && DistinctChecksums(full)
    requires full != [] && full[0].prevChecksum == None && i <= j <= |full|
    ensures NewestFirstVerifies(h, full[i..j]) <==> StrictlyOlder(full[i..j])
  {
    hide Linked, NeverEmpty, Issues, InOrder, Sorted, DistinctChecksums, StrictlyOlder, Reverse, NewestFirst;
    var page := full[i..j];
    if StrictlyOlder(page) {
      forall listing | NewestFirst(listing) && multiset(listing) == multiset(page)
        ensures Issues(h, InOrder(listing), "") == []
      {
        StrictPageSortsBack(page, listing);
        PageVerifiesIffInOrder(h, full, i, j, listing);
      }
    } else {
      SliceLinked(h, full, i, j);
      ReverseIsNewestFirst(page);
      TiesStayReversed(page);
      PageHasDistinctChecksums(full, i, j);
      PageVerifiesIffInOrder(h, full, i, j, Reverse(page));
    }
  }

  lemma PageHasDistinctChecksums(full: seq<Step>, i: nat, j: nat)
    requires i <= j <= |full| && DistinctChecksums(full)
    ensures DistinctChecksums(full[i..j])
  {
  }

  lemma StrictMeansNoTies(page: seq<Step>, x: Step, y: Step)
    requires StrictlyOlder(page) && x in page && y in page && Older(x, y) && Older(y, x)
    ensures x == y
  {
    var a :| 0 <= a < |page| && page[a] == x;
    var b :| 0 <= b < |page| && page[b] == y;
  }

  lemma StrictPageSortsBack(page: seq<Step>, listing: seq<Step>)
    requires StrictlyOlder(page) && multiset(listing) == multiset(page)
    ensures InOrder(listing) == page
  {
    var v := InOrder(listing);
    SortSorts(Older, listing);
    InOrderPermutes(listing);
    assert Sorted(Older, page);
    hide InOrder, StrictlyOlder, Sorted, Sort;
    assert multiset(v) == multiset(page);
    forall x, y | x in v && y in v && Older(x, y) && Older(y, x) ensures x == y {
      assert x in multiset(v) && y in multiset(v);
      StrictMeansNoTies(page, x, y);
    }
    SortedUnique(Older, v, page);
  }

  lemma ReverseIsNewestFirst(page: seq<Step>)
    requires Sorted(Older, page)
    ensures NewestFirst(Reverse(page))
  {
  }

  lemma TiesStayReversed(page: seq<Step>)
    requires !StrictlyOlder(page)
    ensures page != [] && (DistinctChecksums(page) ==> InOrder(Reverse(page)) != page)
  {
    var a, b :| 0 <= a < b < |page| && page[a].createdAt >= page[b].createdAt;
    var v := Reverse(page);
    assert v[|page| - 1 - b] == page[b] && v[|page| - 1 - a] == page[a];
    assert Before(v, page[b], page[a]);
    SortIsStable(Older, v, page[b], page[a]);
  }

  lemma {:induction false} IssuesOfBoth(h: HashInput -> string, a: seq<Step>, b: seq<Step>, prev: string)
    ensures Issues(h, a + b, prev) ==
      Issues(h, a, prev) + Issues(h, b, if a == [] then prev else a[|a| - 1].checksum)
    decreases |a|
  {
    hide StepIssues;
    if a == [] {
      assert a + b == b;
    } else {
      assert (a + b)[1..] == a[1..] + b;
      IssuesOfBoth(h, a[1..], b, a[0].checksum);
    }
  }

  // ----- Restarting -----

  predicate RecordsFor(e: Event, r: string) {
    e.Record? && e.input.runId == r
  }

  /** What was asked to be recorded under the id of `r`. */
  function InputsOf(events: seq<Event>, r: string): seq<StepInput> {
    if events == [] then []
    else
      InputsOf(events[..|events| - 1], r) +
        if RecordsFor(events[|events| - 1], r) then [events[|events| - 1].input] else []
  }

  /** A step of `r` was recorded and `r` was not started since. */
  predicate Underway(events: seq<Event>, r: string) {
    && events != []
    && events[|events| - 1] != Start(r)
    && (RecordsFor(events[|events| - 1], r) || Underway(events[..|events| - 1], r))
  }

  /** Each step that is the first one after a start of its run, but not the first one of all. */
  function Restarts(events: seq<Event>, r: string): seq<Issue> {
    if events == [] then []
    else
      var init, e := events[..|events| - 1], events[|events| - 1];
      Restarts(init, r) +
        if RecordsFor(e, r) && InputsOf(init, r) != [] && !Underway(init, r) then [ChainMismatch(e.input.id)] else []
  }

  const FRESH := RecorderState(map[], [])

  /** What the recorder knows of a run, given what it recorded. */
  ghost predicate Remembers(checksums: map<string, string>, steps: seq<Step>, r: string, underway: bool) {
    (r in checksums <==> underway) && (underway ==> steps != [] && checksums[r] == steps[|steps| - 1].checksum)
  }

  lemma {:induction false} RecorderRemembers(h: HashInput -> string, events: seq<Event>, r: string)
    ensures |Recorded(h, FRESH, events, r)| == |InputsOf(events, r)|
    ensures Remembers(AfterAll(h, FRESH, events).checksums, Recorded(h, FRESH, events, r), r, Underway(events, r))
    decreases |events|
  {
    hide Recorded, Hashed;
    if events == [] {
      RecordedNothing(h, FRESH, r);
    } else {
      RecorderRemembers(h, events[..|events| - 1], r);
      RecordedNext(h, FRESH, events, r);
    }
  }

  /** The issues of a list with one more step, which carries its own checksum. */
  lemma {:induction false} IssuesNext(h: HashInput -> string, steps: seq<Step>, x: Step)
    requires x.checksum == h(Hashed(x)) && (steps != [] ==> steps[|steps| - 1].checksum != "")
    ensures Issues(h, steps + [x], "") == Issues(h, steps, "") +
      if steps != [] && x.prevChecksum != Some(steps[|steps| - 1].checksum) then [ChainMismatch(x.id)] else []
  {
    hide Hashed, Issues;
    IssuesOfBoth(h, steps, [x], "");
    var prev := if steps == [] then "" else steps[|steps| - 1].checksum;
    IssuesFrom(h, [x], 0, prev);
    IssuesFrom(h, [x], 1, x.checksum);
    assert StepIssues(h, x, prev) + [] == StepIssues(h, x, prev);
  }

  ghost predicate AllHashed(h: HashInput -> string, steps: seq<Step>) {
    forall x | x in steps :: x.checksum == h(Hashed(x))
  }

  lemma {:induction false} RecordedAreHashed(h: HashInput -> string, events: seq<Event>, r: string)
    requires Forward(events)
    ensures AllHashed(h, Recorded(h, FRESH, events, r)) && Sorted(Older, Recorded(h, FRESH, events, r))
    decreases |events|
  {
    hide Recorded, Hashed, AfterAll;
    if events == [] {
      RecordedNothing(h, FRESH, r);
    } else {
      var init, e := events[..|events| - 1], events[|events| - 1];
      RecordedAreHashed(h, init, r);
      RecordedNext(h, FRESH, events, r);
      if RecordsFor(e, r) {
        RecordedBy(h, FRESH, init, r, e.input.createdAt);
        MakeStepHashes(h, e.scope, AfterAll(h, FRESH, init).checksums, e.input);
      }
    }
  }

  lemma WholeLog(h: HashInput -> string, events: seq<Event>, r: string)
    ensures OfRun(AfterAll(h, FRESH, events).log, r) == Recorded(h, FRESH, events, r)
  {
    assert AfterAll(h, FRESH, events).log[0..] == AfterAll(h, FRESH, events).log;
  }

  lemma {:induction false} IssuesAreRestarts(h: HashInput -> string, events: seq<Event>, r: string)
    requires NeverEmpty(h) && Forward(events)
    ensures Issues(h, Recorded(h, FRESH, events, r), "") == Restarts(events, r)
    decreases |events|
  {
    hide Recorded, Hashed, AfterAll, Issues, Sorted, Underway, InputsOf;
    if events == [] {
      RecordedNothing(h, FRESH, r);
      IssuesFrom(h, [], 0, "");
    } else {
      var init, e := events[..|events| - 1], events[|events| - 1];
      IssuesAreRestarts(h, init, r);
      RecordedNext(h, FRESH, events, r);
      if RecordsFor(e, r) {
        var steps, checksums := Recorded(h, FRESH, init, r), AfterAll(h, FRESH, init).checksums;
        RecordedAreHashed(h, init, r);
        RecorderRemembers(h, init, r);
        MakeStepHashes(h, e.scope, checksums, e.input);
        IssuesNext(h, steps, MakeStep(h, e.scope, checksums, e.input));
      } else {
        assert Recorded(h, FRESH, events, r) == Recorded(h, FRESH, init, r);
      }
    }
  }

  /** Whatever is recorded, verifying the whole listing of a run reports exactly its restarts. */
  lemma RestartsAreReported(h: HashInput -> string, events: seq<Event>, r: string)
    requires NeverEmpty(h) && Forward(events)
    ensures Issues(h, InOrder(OfRun(AfterAll(h, FRESH, events).log, r)), "") == Restarts(events, r)
  {
    hide Recorded, InOrder, Issues, AfterAll, Restarts, Sorted, Forward, NeverEmpty;
    assert OfRun(AfterAll(h, FRESH, events).log, r) == Recorded(h, FRESH, events, r) by {
      WholeLog(h, events, r);
    }
    RecordedAreHashed(h, events, r);
    SortedIsInOrder(Recorded(h, FRESH, events, r));
    IssuesAreRestarts(h, events, r);
  }

  lemma {:induction false} NoRestarts(before: seq<Event>, r: string)
    requires NotRestarted(before, r)
    ensures Restarts(before, r) == [] && (Underway(before, r) <==> InputsOf(before, r) != [])
    decreases |before|
  {
    if before != [] {
      NoRestarts(before[..|before| - 1], r);
    }
  }

  /** The history of a run around its start. */
  function Around(before: seq<Event>, r: string, after: seq<Event>): seq<Event> {
    before + [Start(r)] + after
  }

  lemma AroundSplits(before: seq<Event>, r: string, after: seq<Event>)
    ensures var events := Around(before, r, after);
            && events != []
            && events[..|events| - 1] ==
                 (if after == [] then before else Around(before, r, after[..|after| - 1]))
            && events[|events| - 1] == if after == [] then Start(r) else after[|after| - 1]
  {
  }

  lemma NotRestartedInit(events: seq<Event>, r: string)
    requires events != [] && NotRestarted(events, r)
    ensures NotRestarted(events[..|events| - 1], r) && events[|events| - 1] != Start(r)
  {
  }

  lemma {:induction false} InputsAround(before: seq<Event>, r: string, after: seq<Event>)
    ensures InputsOf(Around(before, r, after), r) == InputsOf(before, r) + InputsOf(after, r)
    decreases |after|
  {
    hide Around;
    AroundSplits(before, r, after);
    if after != [] {
      InputsAround(before, r, after[..|after| - 1]);
    }
  }

  lemma {:induction false} UnderwayAround(before: seq<Event>, r: string, after: seq<Event>)
    requires NotRestarted(after, r)
    ensures Underway(Around(before, r, after), r) <==> InputsOf(after, r) != []
    decreases |after|
  {
    hide Around, NotRestarted;
    AroundSplits(before, r, after);
    if after != [] {
      NotRestartedInit(after, r);
      UnderwayAround(before, r, after[..|after| - 1]);
    }
  }

  lemma {:induction false} OneRestart(before: seq<Event>, r: string, after: seq<Event>)
    requires NotRestarted(before, r) && NotRestarted(after, r)
    ensures Restarts(Around(before, r, after), r) ==
      if InputsOf(before, r) == [] || InputsOf(after, r) == [] then []
      else [ChainMismatch(InputsOf(after, r)[0].id)]
    decreases |after|
  {
    hide Around, NotRestarted, Underway;
    AroundSplits(before, r, after);
    if after == [] {
      NoRestarts(before, r);
    } else {
      var init := after[..|after| - 1];
      NotRestartedInit(after, r);
      OneRestart(before, r, init);
      InputsAround(before, r, init);
      UnderwayAround(before, r, init);
    }
  }

  /**
   * A run that is started once verifies as a whole unless steps were recorded under its id both before the start, as
   * the task selection does, and after it: then exactly the first step after the start is reported.
   */
  lemma RestartIsReported(h: HashInput -> string, before: seq<Event>, after: seq<Event>, r: string)
    requires NeverEmpty(h) && Forward(Around(before, r, after)) && NotRestarted(before, r) && NotRestarted(after, r)
    ensures Issues(h, InOrder(OfRun(AfterAll(h, FRESH, Around(before, r, after)).log, r)), "") ==
      if InputsOf(before, r) == [] || InputsOf(after, r) == [] then []
      else [ChainMismatch(InputsOf(after, r)[0].id)]
  {
    hide Issues, InOrder, AfterAll, Forward, NotRestarted, NeverEmpty, Restarts, OfRun, InputsOf, Around;
    RestartsAreReported(h, Around(before, r, after), r);
    OneRestart(before, r, after);
  }
}
