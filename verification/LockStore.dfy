/** The fenced lease store kept in memory, and the handle through which a run uses it. Instants are integers. */
module LockStore {
  import opened Options

  datatype Lease = Lease(resource: string, ownerId: string, fencingToken: nat, acquiredAt: int, expiresAt: int)

  datatype Reason = MissingLock | OwnerMismatch | StaleFencingToken | Expired

  datatype Op =
    | Acquire(resource: string, ownerId: string, now: int, ttl: int)
    | Renew(resource: string, ownerId: string, token: nat, now: int, ttl: int)
    | Release(resource: string, ownerId: string, token: nat)
    | Validate(resource: string, ownerId: string, token: nat, now: int)

  datatype Reply =
    | Granted(lease: Lease)
    | AlreadyLocked(lease: Lease)
    | Renewed(lease: Lease)
    | Released
    | Valid(lease: Lease)
    | Refused(reason: Reason, current: Option<Lease>)

  datatype LockState = LockState(records: map<string, Lease>, counter: nat)

  /** `None` when the lease stands; otherwise the first of the three checks that fails. */
  function ValidateLease(lease: Lease, ownerId: string, token: nat, now: int): Option<Reason> {
    if lease.expiresAt <= now then Some(Expired)
    else if lease.ownerId != ownerId then Some(OwnerMismatch)
    else if lease.fencingToken != token then Some(StaleFencingToken)
    else None
  }

  function Apply(s: LockState, op: Op): (LockState, Reply) {
    var r := op.resource;
    match op
    case Acquire(_, owner, now, ttl) =>
      if r in s.records && s.records[r].expiresAt > now then (s, AlreadyLocked(s.records[r]))
      else
        var lease := Lease(r, owner, s.counter + 1, now, now + ttl);
        (LockState(s.records[r := lease], s.counter + 1), Granted(lease))
    case Renew(_, owner, token, now, ttl) =>
      if r !in s.records then (s, Refused(MissingLock, None))
      else
        var refusal := ValidateLease(s.records[r], owner, token, now);
        if refusal.Some? then (s, Refused(refusal.value, Some(s.records[r])))
        else
          var lease := s.records[r].(expiresAt := now + ttl);
          (s.(records := s.records[r := lease]), Renewed(lease))
    case Release(_, owner, token) =>
      if r !in s.records then (s, Refused(MissingLock, None))
      else if s.records[r].ownerId != owner then (s, Refused(OwnerMismatch, Some(s.records[r])))
      else if s.records[r].fencingToken != token then (s, Refused(StaleFencingToken, Some(s.records[r])))
      else (s.(records := s.records - {r}), Reply.Released)
    case Validate(_, owner, token, now) =>
      if r !in s.records then (s, Refused(MissingLock, None))
      else
        var refusal := ValidateLease(s.records[r], owner, token, now);
        (s, if refusal.Some? then Refused(refusal.value, Some(s.records[r])) else Valid(s.records[r]))
  }

  /** The store files every lease under its resource. */
  predicate Filed(s: LockState) {
    forall r | r in s.records :: s.records[r].resource == r
  }

  lemma ApplyKeepsFiled(s: LockState, op: Op)
    requires Filed(s)
    ensures Filed(Apply(s, op).0)
  {
  }

  class InMemoryDistributedLockStore {
    var records: map<string, Lease>
    var globalFencingCounter: nat

    function State(): LockState
      reads this
    {
      LockState(records, globalFencingCounter)
    }

    constructor ()
      ensures State() == LockState(map[], 0)
    {
      records, globalFencingCounter := map[], 0;
    }

    method Acquire(resource: string, ownerId: string, now: int, ttl: int) returns (reply: Reply)
      modifies this
      ensures (State(), reply) == Apply(old(State()), Op.Acquire(resource, ownerId, now, ttl))
    {
      if resource in records && records[resource].expiresAt > now {
        return AlreadyLocked(records[resource]);
      }
      var token := NextFencingToken();
      var lease := Lease(resource, ownerId, token, now, now + ttl);
      records := records[resource := lease];
      return Granted(lease);
    }

    method NextFencingToken() returns (token: nat)
      modifies this`globalFencingCounter
      ensures token == globalFencingCounter == old(globalFencingCounter) + 1
    {
      globalFencingCounter := globalFencingCounter + 1;
      return globalFencingCounter;
    }

    method Renew(resource: string, ownerId: string, token: nat, now: int, ttl: int) returns (reply: Reply)
      modifies this
      ensures (State(), reply) == Apply(old(State()), Op.Renew(resource, ownerId, token, now, ttl))
    {
      if resource !in records {
        return Refused(MissingLock, None);
      }
      var current := records[resource];
      var refusal := ValidateLease(current, ownerId, token, now);
      if refusal.Some? {
        return Refused(refusal.value, Some(current));
      }
      var renewed := current.(expiresAt := now + ttl);
      records := records[resource := renewed];
      return Renewed(renewed);
    }

    method Release(resource: string, ownerId: string, token: nat) returns (reply: Reply)
      modifies this
      ensures (State(), reply) == Apply(old(State()), Op.Release(resource, ownerId, token))
    {
      if resource !in records {
        return Refused(MissingLock, None);
      }
      if records[resource].ownerId != ownerId {
        return Refused(OwnerMismatch, Some(records[resource]));
      }
      if records[resource].fencingToken != token {
        return Refused(StaleFencingToken, Some(records[resource]));
      }
      records := records - {resource};
      return Reply.Released;
    }

    method Validate(resource: string, ownerId: string, token: nat, now: int) returns (reply: Reply)
      ensures (State(), reply) == Apply(State(), Op.Validate(resource, ownerId, token, now))
    {
      if resource !in records {
        return Refused(MissingLock, None);
      }
      var refusal := ValidateLease(records[resource], ownerId, token, now);
      reply := if refusal.Some? then Refused(refusal.value, Some(records[resource])) else Valid(records[resource]);
    }
  }

  /** The handle of a run. It caches the last lease it saw, whose token it presents with every request. */
  class ExecutionLeaseHandle {
    const store: InMemoryDistributedLockStore
    const resource: string
    const ownerId: string
    const ttl: int
    /** The token of the original grant; the cached lease never carries another. */
    ghost const token: nat
    var currentLease: Lease

    ghost predicate Consistent()
      reads this
    {
      currentLease.resource == resource && currentLease.ownerId == ownerId && currentLease.fencingToken == token
    }

    constructor (store: InMemoryDistributedLockStore, lease: Lease, ttl: int)
      ensures this.store == store && this.ttl == ttl && currentLease == lease && Consistent()
      ensures token == lease.fencingToken && resource == lease.resource && ownerId == lease.ownerId
    {
      this.store, this.ttl, this.currentLease := store, ttl, lease;
      this.resource, this.ownerId, this.token := lease.resource, lease.ownerId, lease.fencingToken;
    }

    method Renew(now: int) returns (renewed: bool)
      requires Consistent() && Filed(store.State())
      modifies this, store
      ensures Consistent() && Filed(store.State())
      ensures store.State() == Apply(old(store.State()), Op.Renew(resource, ownerId, token, now, ttl)).0
      ensures renewed == Apply(old(store.State()), Op.Renew(resource, ownerId, token, now, ttl)).1.Renewed?
      ensures if renewed then resource in store.records && currentLease == store.records[resource]
              else currentLease == old(currentLease)
    {
      var reply := store.Renew(resource, ownerId, currentLease.fencingToken, now, ttl);
      if !reply.Renewed? {
        return false;
      }
      currentLease := reply.lease;
      return true;
    }

    method Validate(now: int) returns (valid: bool)
      requires Consistent() && Filed(store.State())
      modifies this
      ensures Consistent()
      ensures valid == Live(store.State(), resource, ownerId, token, now)
      ensures if valid then currentLease == store.records[resource] else currentLease == old(currentLease)
    {
      var reply := store.Validate(resource, ownerId, currentLease.fencingToken, now);
      if !reply.Valid? {
        return false;
      }
      currentLease := reply.lease;
      return true;
    }

    /** False stands for the error that the handle raises when the store refuses. */
    method Release() returns (released: bool)
      requires Consistent() && Filed(store.State())
      modifies store
      ensures Consistent() && Filed(store.State())
      ensures store.State() == Apply(old(store.State()), Op.Release(resource, ownerId, token)).0
      ensures released == Apply(old(store.State()), Op.Release(resource, ownerId, token)).1.Released?
    {
      var reply := store.Release(resource, ownerId, currentLease.fencingToken);
      released := reply.Released?;
    }
  }

  // ----- Fencing, over all sequences of requests -----

  function Final(s: LockState, ops: seq<Op>): LockState
    decreases |ops|
  {
    if ops == [] then s else Final(Apply(s, ops[0]).0, ops[1..])
  }

  function Replies(s: LockState, ops: seq<Op>): (r: seq<Reply>)
    ensures |r| == |ops|
    decreases |ops|
  {
    if ops == [] then [] else [Apply(s, ops[0]).1] + Replies(Apply(s, ops[0]).0, ops[1..])
  }

  lemma {:induction false} FinalKeepsFiled(s: LockState, ops: seq<Op>)
    requires Filed(s)
    ensures Filed(Final(s, ops))
    decreases |ops|
  {
    if ops != [] {
      ApplyKeepsFiled(s, ops[0]);
      FinalKeepsFiled(Apply(s, ops[0]).0, ops[1..]);
    }
  }

  /** Whatever is requested of a new store, it files every lease under its resource, as the handles take for granted. */
  lemma AlwaysFiled(ops: seq<Op>)
    ensures Filed(Final(LockState(map[], 0), ops))
  {
    FinalKeepsFiled(LockState(map[], 0), ops);
  }

  lemma {:induction false} TokensExceedCounter(s: LockState, ops: seq<Op>, i: nat)
    requires i < |ops| && Replies(s, ops)[i].Granted?
    ensures Replies(s, ops)[i].lease.fencingToken > s.counter
    decreases |ops|
  {
    if i > 0 {
      TokensExceedCounter(Apply(s, ops[0]).0, ops[1..], i - 1);
    }
  }

  /** Every grant, on whatever resource and by whatever clock, carries a larger token than all grants before it. */
  lemma {:induction false} TokensIncrease(s: LockState, ops: seq<Op>, i: nat, j: nat)
    requires i < j < |ops| && Replies(s, ops)[i].Granted? && Replies(s, ops)[j].Granted?
    ensures Replies(s, ops)[i].lease.fencingToken < Replies(s, ops)[j].lease.fencingToken
    decreases |ops|
  {
    if i > 0 {
      TokensIncrease(Apply(s, ops[0]).0, ops[1..], i - 1, j - 1);
    } else {
      TokensExceedCounter(Apply(s, ops[0]).0, ops[1..], j - 1);
    }
  }

  /** The token was issued and no record on `r` carries it. */
  predicate Gone(s: LockState, r: string, token: nat) {
    token <= s.counter && (r in s.records ==> s.records[r].fencingToken != token)
  }

  predicate Presents(op: Op, r: string, token: nat) {
    !op.Acquire? && op.resource == r && op.token == token
  }

  /** A token that is gone is refused for ever, under any clocks. */
  lemma {:induction false} GoneForGood(s: LockState, r: string, token: nat, ops: seq<Op>)
    requires Gone(s, r, token)
    ensures Gone(Final(s, ops), r, token)
    ensures forall i | 0 <= i < |ops| && Presents(ops[i], r, token) :: Replies(s, ops)[i].Refused?
    decreases |ops|
  {
    if ops != [] {
      GoneForGood(Apply(s, ops[0]).0, r, token, ops[1..]);
    }
  }

  /** Once a resource is granted again, no earlier handle on it validates, renews or releases any more. */
  lemma RegrantFencesEarlierHandles(s: LockState, grant: Op, ops: seq<Op>, token: nat)
    requires Apply(s, grant).1.Granted? && token <= s.counter
    ensures forall i | 0 <= i < |ops| && Presents(ops[i], grant.resource, token) ::
              Replies(Apply(s, grant).0, ops)[i].Refused?
  {
    GoneForGood(Apply(s, grant).0, grant.resource, token, ops);
  }

  predicate Live(s: LockState, r: string, ownerId: string, token: nat, now: int) {
    r in s.records && ValidateLease(s.records[r], ownerId, token, now) == None
  }

  /** A lease stands for its owner under its own token, as long as it has not expired. */
  lemma LiveMeans(s: LockState, r: string, ownerId: string, token: nat, now: int)
    ensures Live(s, r, ownerId, token, now) <==>
      r in s.records && now < s.records[r].expiresAt &&
      s.records[r].ownerId == ownerId && s.records[r].fencingToken == token
  {
  }

  ghost predicate Free(s: LockState, r: string, now: int) {
    forall owner, token :: !Live(s, r, owner, token, now)
  }

  /**
   * An acquire is granted exactly when no lease on the resource is live: nobody waits for a holder whose lease ran
   * out, and nobody takes over one that stands. A refusal shows the live lease.
   */
  lemma AcquireGrantedIffFree(s: LockState, r: string, owner: string, now: int, ttl: int)
    ensures var (s', reply) := Apply(s, Acquire(r, owner, now, ttl));
            && (reply.Granted? <==> Free(s, r, now))
            && (if reply.Granted? then
                  && r in s'.records && reply.lease == s'.records[r]
                  && reply.lease.acquiredAt == now && reply.lease.fencingToken == s'.counter == s.counter + 1
                  && forall later :: Live(s', r, owner, reply.lease.fencingToken, later) <==> later < now + ttl
                else
                  && s' == s && reply.AlreadyLocked?
                  && Live(s, r, reply.lease.ownerId, reply.lease.fencingToken, now) && reply.lease == s.records[r])
  {
    if r in s.records && s.records[r].expiresAt > now {
      assert Live(s, r, s.records[r].ownerId, s.records[r].fencingToken, now);
    }
  }

  /** The requests of a holder succeed exactly when they should, each with its own effect. */
  lemma HolderRequests(s: LockState, r: string, owner: string, token: nat, now: int, ttl: int)
    ensures var (s', reply) := Apply(s, Renew(r, owner, token, now, ttl));
            && (reply.Renewed? <==> Live(s, r, owner, token, now))
            && (if reply.Renewed? then
                  && r in s'.records && reply.lease == s'.records[r]
                  && reply.lease.acquiredAt == s.records[r].acquiredAt
                  && forall later :: Live(s', r, owner, token, later) <==> later < now + ttl
                else s' == s)
    ensures var (s', reply) := Apply(s, Validate(r, owner, token, now));
            && (reply.Valid? <==> Live(s, r, owner, token, now)) && s' == s
            && (reply.Valid? ==> reply.lease == s.records[r])
    ensures var (s', reply) := Apply(s, Release(r, owner, token));
            && (reply.Released? <==>
                  r in s.records && s.records[r].ownerId == owner && s.records[r].fencingToken == token)
            && (if reply.Released? then forall later :: Free(s', r, later) else s' == s)
  {
  }

  /** A refusal names the first thing that is wrong: no lease, an expired one, another owner, another token. */
  lemma RefusalReason(s: LockState, op: Op)
    requires Apply(s, op).1.Refused?
    ensures var reply := Apply(s, op).1;
            && (reply.reason == MissingLock <==> op.resource !in s.records)
            && (op.resource in s.records ==>
                  && var l := s.records[op.resource];
                  && reply.current == Some(l)
                  && (reply.reason == Expired <==> !op.Release? && l.expiresAt <= op.now)
                  && (reply.reason == OwnerMismatch ==> l.ownerId != op.ownerId)
                  && (reply.reason == StaleFencingToken ==> l.ownerId == op.ownerId && l.fencingToken != op.token))
  {
  }

  /** No request touches the lease of another resource. */
  lemma OtherResourcesStay(s: LockState, op: Op, r: string)
    requires r != op.resource
    ensures var s' := Apply(s, op).0;
            (r in s'.records <==> r in s.records) && (r in s.records ==> s'.records[r] == s.records[r])
  {
  }

  /** The request neither renews nor releases the lease, and its clock reads less than `until`. */
  predicate LeavesAlone(op: Op, r: string, owner: string, token: nat, until: int) {
    && (op.Release? || op.now < until)
    && !((op.Release? || op.Renew?) && op.resource == r && op.ownerId == owner && op.token == token)
  }

  lemma {:induction false} LeaseStands(s: LockState, r: string, owner: string, token: nat, until: int, ops: seq<Op>)
    requires r in s.records && s.records[r].ownerId == owner && s.records[r].fencingToken == token
    requires s.records[r].expiresAt == until
    requires forall op | op in ops :: LeavesAlone(op, r, owner, token, until)
    ensures r in Final(s, ops).records && Final(s, ops).records[r] == s.records[r]
    decreases |ops|
  {
    if ops != [] {
      assert LeavesAlone(ops[0], r, owner, token, until);
      LeaseStands(Apply(s, ops[0]).0, r, owner, token, until, ops[1..]);
    }
  }

  /** A granted lease is live at every instant before it expires, whatever others request, unless its holder acts. */
  lemma GrantHolds(s: LockState, r: string, owner: string, now: int, ttl: int, ops: seq<Op>, later: int)
    requires Apply(s, Acquire(r, owner, now, ttl)).1.Granted?
    requires forall op | op in ops ::
               LeavesAlone(op, r, owner, Apply(s, Acquire(r, owner, now, ttl)).1.lease.fencingToken, now + ttl)
    ensures var (s', reply) := Apply(s, Acquire(r, owner, now, ttl));
            Live(Final(s', ops), r, owner, reply.lease.fencingToken, later) <==> later < now + ttl
  {
    var (s', reply) := Apply(s, Acquire(r, owner, now, ttl));
    LeaseStands(s', r, owner, reply.lease.fencingToken, now + ttl, ops);
  }

  /** The clock reading that an operation brings along is at least `now`. */
  predicate NotBefore(op: Op, now: int) {
    op.Release? || op.now >= now
  }

  /** A handle that is no longer valid at some instant is never valid again. */
  lemma {:induction false} ExpiredForGood(
      s: LockState, r: string, owner: string, token: nat, now: int, ops: seq<Op>, later: int)
    requires token <= s.counter && !Live(s, r, owner, token, now) && later >= now
    requires forall op | op in ops :: NotBefore(op, now)
    ensures !Live(Final(s, ops), r, owner, token, later)
    decreases |ops|
  {
    if ops != [] {
      assert NotBefore(ops[0], now);
      ExpiredForGood(Apply(s, ops[0]).0, r, owner, token, now, ops[1..], later);
    }
  }

  /** A grant under a clock that does not run backwards leaves exactly one valid handle on the resource: its own. */
  lemma GrantIsExclusive(s: LockState, grant: Op, ops: seq<Op>, owner: string, token: nat, later: int)
    requires Apply(s, grant).1.Granted? && later >= grant.now
    requires forall op | op in ops :: NotBefore(op, grant.now)
    requires token <= s.counter || owner != grant.ownerId
    requires token <= s.counter + 1
    ensures !Live(Final(Apply(s, grant).0, ops), grant.resource, owner, token, later)
  {
    ExpiredForGood(Apply(s, grant).0, grant.resource, owner, token, grant.now, ops, later);
  }

  // ----- The heartbeat -----

  function RenewalInterval(ttl: int): int {
    if ttl / 2 < 1 then 1 else ttl / 2
  }

  predicate Own(op: Op, r: string, owner: string, token: nat) {
    op.Renew? && op.resource == r && op.ownerId == owner && op.token == token
  }

  /** Half the time to live, rounded down, but never less than one tick. */
  lemma IntervalIsHalf(ttl: int)
    ensures RenewalInterval(ttl) >= 1
    ensures ttl >= 2 ==> 2 * RenewalInterval(ttl) <= ttl <= 2 * RenewalInterval(ttl) + 1
    ensures ttl < 2 ==> RenewalInterval(ttl) == 1
  {
  }

  /**
   * `ops` is a schedule of requests under one clock. `due` is the nominal instant of the latest renewal, or of the
   * grant; the next own renewal comes no sooner than one interval after it and early enough for the slack that
   * the time to live leaves. Requests by others are arbitrary, except that they do not release this very lease.
   */
  predicate OnTime(ops: seq<Op>, r: string, owner: string, token: nat, ttl: int, due: int)
    decreases |ops|
  {
    ops != [] ==>
      && (ops[0].Release? || ops[0].now <= due + ttl - 1)
      && !(ops[0].Release? && ops[0].resource == r && ops[0].ownerId == owner && ops[0].token == token)
      && if Own(ops[0], r, owner, token)
         then ops[0].now >= due + RenewalInterval(ttl) && ops[0].ttl == ttl
              && OnTime(ops[1..], r, owner, token, ttl, due + RenewalInterval(ttl))
         else OnTime(ops[1..], r, owner, token, ttl, due)
  }

  function LastDue(ops: seq<Op>, r: string, owner: string, token: nat, ttl: int, due: int): int
    decreases |ops|
  {
    if ops == [] then due
    else LastDue(ops[1..], r, owner, token, ttl,
                 if Own(ops[0], r, owner, token) then due + RenewalInterval(ttl) else due)
  }

  /** As long as each renewal lands within the slack, the lease is valid at every instant and every renewal succeeds. */
  lemma {:induction false} HeartbeatCovers(s: LockState, r: string, owner: string, token: nat, ttl: int, due: int,
                                           ops: seq<Op>, at: int)
    requires r in s.records && s.records[r].ownerId == owner && s.records[r].fencingToken == token
    requires s.records[r].expiresAt >= due + ttl
    requires OnTime(ops, r, owner, token, ttl, due)
    requires at <= LastDue(ops, r, owner, token, ttl, due) + ttl - 1
    ensures Live(Final(s, ops), r, owner, token, at)
    ensures forall i | 0 <= i < |ops| && Own(ops[i], r, owner, token) :: Replies(s, ops)[i].Renewed?
    decreases |ops|
  {
    if ops != [] {
      var s' := Apply(s, ops[0]).0;
      if Own(ops[0], r, owner, token) {
        HeartbeatCovers(s', r, owner, token, ttl, due + RenewalInterval(ttl), ops[1..], at);
      } else {
        ForeignRequestKeepsLease(s, r, owner, token, ttl, due, ops[0]);
        HeartbeatCovers(s', r, owner, token, ttl, due, ops[1..], at);
      }
    }
  }

  lemma ForeignRequestKeepsLease(s: LockState, r: string, owner: string, token: nat, ttl: int, due: int, op: Op)
    requires r in s.records && s.records[r].ownerId == owner && s.records[r].fencingToken == token
    requires s.records[r].expiresAt >= due + ttl && !Own(op, r, owner, token)
    requires op.Release? || op.now <= due + ttl - 1
    requires !(op.Release? && op.resource == r && op.ownerId == owner && op.token == token)
    ensures r in Apply(s, op).0.records && Apply(s, op).0.records[r] == s.records[r]
  {
  }

  /** The first renewal, timed exactly, succeeds if and only if the time to live is at least two ticks. */
  lemma HeartbeatNeedsTwoTicks(s: LockState, r: string, owner: string, start: int, ttl: int)
    requires Apply(s, Acquire(r, owner, start, ttl)).1.Granted? && ttl >= 1
    ensures var (s', reply) := Apply(s, Acquire(r, owner, start, ttl));
            Apply(s', Renew(r, owner, reply.lease.fencingToken, start + RenewalInterval(ttl), ttl)).1.Renewed?
            <==> ttl >= 2
  {
  }
}
