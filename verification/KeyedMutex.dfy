/**
 * The in-process mutex, one queue per key. A call waits for the tail it found under its key, a promise that settles
 * when that call has released its gate and its own predecessor has settled.
 */
module KeyedMutex {
  import opened Options

  datatype Phase = Waiting | Running | Finished

  /** `previous` is the call whose tail was found under the key; `None` stands for a resolved promise. */
  datatype Call = Call(key: string, previous: Option<nat>, phase: Phase)

  /** Calls are numbered in order of arrival. */
  datatype MutexState = MutexState(tails: map<string, nat>, calls: seq<Call>)

  /** One slice of the event loop: a call arrives, a waiting body is entered, or a body returns or throws. */
  datatype Step = Enter(key: string) | Start(c: nat) | Leave(c: nat, threw: bool)

  /** The tail of call `c` has settled: its gate is open, and the tail before it has settled. */
  predicate Settled(calls: seq<Call>, c: nat)
    decreases c
  {
    c < |calls| && calls[c].phase == Finished &&
    (calls[c].previous.None? || (calls[c].previous.value < c && Settled(calls, calls[c].previous.value)))
  }

  predicate MayStart(calls: seq<Call>, c: nat) {
    c < |calls| && calls[c].phase == Waiting &&
    (calls[c].previous.None? || Settled(calls, calls[c].previous.value))
  }

  /** `None` when the step cannot happen. */
  function Next(s: MutexState, step: Step): Option<MutexState> {
    match step
    case Enter(k) =>
      var previous := if k in s.tails then Some(s.tails[k]) else None;
      Some(MutexState(s.tails[k := |s.calls|], s.calls + [Call(k, previous, Waiting)]))
    case Start(c) =>
      if !MayStart(s.calls, c) then None
      else Some(s.(calls := s.calls[c := s.calls[c].(phase := Running)]))
    case Leave(c, _) =>
      if c >= |s.calls| || s.calls[c].phase != Running then None
      else
        var k := s.calls[c].key;
        Some(MutexState(if k in s.tails && s.tails[k] == c then s.tails - {k} else s.tails,
                        s.calls[c := s.calls[c].(phase := Finished)]))
  }

  class KeyedAsyncMutex {
    var tails: map<string, nat>
    var calls: seq<Call>

    function State(): MutexState
      reads this
    {
      MutexState(tails, calls)
    }

    constructor ()
      ensures State() == MutexState(map[], [])
    {
      tails, calls := map[], [];
    }

    /** The part of `runExclusive` before its `await`. */
    method Arrive(key: string) returns (c: nat)
      modifies this
      ensures Some(State()) == Next(old(State()), Enter(key)) && c == |old(State()).calls|
    {
      var previous := if key in tails then Some(tails[key]) else None;
      c := |calls|;
      calls := calls + [Call(key, previous, Waiting)];
      tails := tails[key := c];
    }

    /** After the `await`: the body is entered if the awaited tail has settled. */
    method Resume(c: nat) returns (entered: bool)
      modifies this
      ensures if MayStart(old(calls), c) then entered && Some(State()) == Next(old(State()), Start(c))
              else !entered && State() == old(State())
    {
      entered := MayStart(calls, c);
      if entered {
        calls := calls[c := calls[c].(phase := Running)];
      }
    }

    /** The `finally` block, reached whether or not the body throws. */
    method Finish(c: nat, threw: bool)
      requires c < |calls| && calls[c].phase == Running
      modifies this
      ensures Some(State()) == Next(old(State()), Leave(c, threw))
    {
      var key := calls[c].key;
      calls := calls[c := calls[c].(phase := Finished)];
      if key in tails && tails[key] == c {
        tails := tails - {key};
      }
    }
  }

  // ----- The invariant of every schedule -----

  predicate AllFinishedBefore(calls: seq<Call>, k: string, c: nat) {
    forall d | 0 <= d < |calls| && d < c && calls[d].key == k :: calls[d].phase == Finished
  }

  /** `p` is the last call on key `k` before `c`. */
  predicate DirectlyBefore(calls: seq<Call>, k: string, p: nat, c: nat) {
    && p < c && p < |calls| && calls[p].key == k
    && forall d | 0 <= d < |calls| && p < d < c :: calls[d].key != k
  }

  predicate CallOk(calls: seq<Call>, c: nat)
    requires c < |calls|
  {
    var Call(k, previous, phase) := calls[c];
    && (if previous.Some? then DirectlyBefore(calls, k, previous.value, c) else AllFinishedBefore(calls, k, c))
    && (phase != Waiting ==> AllFinishedBefore(calls, k, c))
  }

  predicate CallsOk(calls: seq<Call>) {
    forall c | 0 <= c < |calls| :: CallOk(calls, c)
  }

  /** The map holds the last call on a key while that call is unfinished. */
  predicate TailsOk(s: MutexState) {
    && (forall k | k in s.tails ::
          DirectlyBefore(s.calls, k, s.tails[k], |s.calls|) && s.calls[s.tails[k]].phase != Finished)
    && (forall c | 0 <= c < |s.calls| && s.calls[c].key !in s.tails :: s.calls[c].phase == Finished)
  }

  predicate Inv(s: MutexState) {
    CallsOk(s.calls) && TailsOk(s)
  }

  lemma {:induction false} SettledIffFinished(calls: seq<Call>, c: nat)
    requires CallsOk(calls) && c < |calls|
    ensures Settled(calls, c) <==> calls[c].phase == Finished
    decreases c
  {
    assert CallOk(calls, c);
    if calls[c].phase == Finished && calls[c].previous.Some? {
      SettledIffFinished(calls, calls[c].previous.value);
    }
  }

  /** Everything before the directly preceding call is finished once that call is. */
  lemma FinishedBefore(calls: seq<Call>, c: nat)
    requires CallsOk(calls) && c < |calls|
    requires calls[c].previous.Some? ==>
               calls[c].previous.value < |calls| && calls[calls[c].previous.value].phase == Finished
    ensures AllFinishedBefore(calls, calls[c].key, c)
  {
    assert CallOk(calls, c);
    if calls[c].previous.Some? {
      var p := calls[c].previous.value;
      assert CallOk(calls, p);
      forall d | 0 <= d < c && calls[d].key == calls[c].key ensures calls[d].phase == Finished {
        assert d <= p;
      }
    }
  }

  lemma EnterKeepsInv(s: MutexState, k: string)
    requires Inv(s)
    ensures Inv(Next(s, Enter(k)).value)
  {
    var s' := Next(s, Enter(k)).value;
    forall c | 0 <= c < |s'.calls| ensures CallOk(s'.calls, c) {
      if c < |s.calls| { assert CallOk(s.calls, c); }
    }
  }

  lemma StartKeepsInv(s: MutexState, c: nat)
    requires Inv(s) && Next(s, Start(c)).Some?
    ensures Inv(Next(s, Start(c)).value)
  {
    var s' := Next(s, Start(c)).value;
    assert CallOk(s.calls, c);
    if s.calls[c].previous.Some? { SettledIffFinished(s.calls, s.calls[c].previous.value); }
    FinishedBefore(s.calls, c);
    forall d | 0 <= d < |s'.calls| ensures CallOk(s'.calls, d) {
      assert CallOk(s.calls, d);
    }
  }

  lemma LeaveKeepsInv(s: MutexState, c: nat, threw: bool)
    requires Inv(s) && Next(s, Leave(c, threw)).Some?
    ensures Inv(Next(s, Leave(c, threw)).value)
  {
    var s' := Next(s, Leave(c, threw)).value;
    assert CallOk(s.calls, c);
    forall d | 0 <= d < |s'.calls| ensures CallOk(s'.calls, d) {
      assert CallOk(s.calls, d);
    }
  }

  lemma StepKeepsInv(s: MutexState, step: Step)
    requires Inv(s) && Next(s, step).Some?
    ensures Inv(Next(s, step).value)
  {
    match step {
      case Enter(k) => EnterKeepsInv(s, k);
      case Start(c) => StartKeepsInv(s, c);
      case Leave(c, threw) => LeaveKeepsInv(s, c, threw);
    }
  }

  // ----- Whole schedules -----

  function Exec(s: MutexState, steps: seq<Step>): Option<MutexState>
    decreases |steps|
  {
    if steps == [] then Some(s)
    else
      var n := Next(s, steps[0]);
      if n.None? then None else Exec(n.value, steps[1..])
  }

  lemma {:induction false} RunKeepsInv(s: MutexState, steps: seq<Step>)
    requires Inv(s) && Exec(s, steps).Some?
    ensures Inv(Exec(s, steps).value)
    decreases |steps|
  {
    hide Next, Inv;
    if steps != [] {
      StepKeepsInv(s, steps[0]);
      RunKeepsInv(Next(s, steps[0]).value, steps[1..]);
    }
  }

  ghost predicate Reachable(s: MutexState) {
    exists steps :: Exec(MutexState(map[], []), steps) == Some(s)
  }

  lemma ReachableKeepsInv(s: MutexState)
    requires Reachable(s)
    ensures Inv(s)
  {
    var steps :| Exec(MutexState(map[], []), steps) == Some(s);
    RunKeepsInv(MutexState(map[], []), steps);
  }

  /**
   * Calls on one key enter in arrival order, each after all earlier ones have finished; in particular at most one
   * body per key runs at a time.
   */
  lemma FirstComeFirstServed(s: MutexState, c: nat, d: nat)
    requires Reachable(s) && c < d < |s.calls| && s.calls[c].key == s.calls[d].key
    ensures s.calls[d].phase != Waiting ==> s.calls[c].phase == Finished
    ensures !(s.calls[c].phase == Running && s.calls[d].phase == Running)
  {
    ReachableKeepsInv(s);
    assert CallOk(s.calls, d);
  }

  /** The map holds a key exactly while some call on it is unfinished. */
  lemma MapHoldsBusyKeys(s: MutexState, k: string)
    requires Reachable(s)
    ensures k in s.tails <==> exists c :: 0 <= c < |s.calls| && s.calls[c].key == k && s.calls[c].phase != Finished
  {
    ReachableKeepsInv(s);
  }

  /**
   * A waiting call may be entered exactly when all earlier calls on its own key have finished, by a return or by
   * a throw: calls on other keys never count.
   */
  lemma WaitsForItsKeyOnly(s: MutexState, c: nat)
    requires Reachable(s) && c < |s.calls| && s.calls[c].phase == Waiting
    ensures MayStart(s.calls, c) <==> AllFinishedBefore(s.calls, s.calls[c].key, c)
  {
    ReachableKeepsInv(s);
    assert CallOk(s.calls, c);
    if s.calls[c].previous.Some? {
      SettledIffFinished(s.calls, s.calls[c].previous.value);
      if MayStart(s.calls, c) { FinishedBefore(s.calls, c); }
    }
  }

  /** No key is ever stuck: while a call on it waits, a body on it runs or may be entered. */
  lemma {:induction false} NoKeyIsStuck(s: MutexState, c: nat)
    requires Reachable(s) && c < |s.calls| && s.calls[c].phase == Waiting
    ensures exists d :: 0 <= d <= c && s.calls[d].key == s.calls[c].key &&
              (s.calls[d].phase == Running || MayStart(s.calls, d))
    decreases c
  {
    WaitsForItsKeyOnly(s, c);
    if !MayStart(s.calls, c) {
      var e :| 0 <= e < c && s.calls[e].key == s.calls[c].key && s.calls[e].phase != Finished;
      if s.calls[e].phase == Waiting { NoKeyIsStuck(s, e); }
    }
  }
}
