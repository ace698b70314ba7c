/** The registry that keeps a side effect from being performed twice. Instants are integers. */
module Dedup {
  import opened Options

  datatype Status = Pending | Succeeded | Failed | Expired
  datatype Entry = Entry(
    status: Status, leaseOwner: string, createdAt: int, updatedAt: int, expiresAt: int,
    policyDecisionId: Option<string>, evidenceId: Option<string>)

  type Registry = map<string, Entry>

  datatype Command =
    | Reserve(key: string, leaseOwner: string, now: int, ttl: int)
    | Finalize(key: string, onBehalfOf: Option<string>, now: int, succeeded: bool,
               policyDecisionId: Option<string>, evidenceId: Option<string>)

  datatype Reply =
    | Reserved(entry: Entry)
    | DuplicatePending(entry: Entry)
    | DuplicateSucceeded(entry: Entry)
    | Finalized(entry: Entry)
    | MissingEntry
    | OwnerMismatch(entry: Entry)

  predicate Blocks(reg: Registry, key: string, now: int) {
    key in reg && now < reg[key].expiresAt && (reg[key].status == Pending || reg[key].status == Succeeded)
  }

  function FreshEntry(owner: string, now: int, ttl: int): Entry {
    Entry(Pending, owner, now, now, now + ttl, None, None)
  }

  function Updated(e: Entry, now: int, succeeded: bool, policy: Option<string>, evidence: Option<string>): Entry {
    e.(status := if succeeded then Succeeded else Failed,
       updatedAt := now,
       policyDecisionId := if policy.Some? && policy.value != "" then policy else e.policyDecisionId,
       evidenceId := if evidence.Some? && evidence.value != "" then evidence else e.evidenceId)
  }

  /** An absent or empty owner is not checked. */
  predicate Refuses(reg: Registry, key: string, owner: Option<string>) {
    owner.Some? && owner.value != "" && key in reg && reg[key].leaseOwner != owner.value
  }

  function Apply(reg: Registry, c: Command): (Registry, Reply) {
    match c
    case Reserve(key, owner, now, ttl) =>
      if Blocks(reg, key, now) then
        (reg, if reg[key].status == Pending then DuplicatePending(reg[key]) else DuplicateSucceeded(reg[key]))
      else (reg[key := FreshEntry(owner, now, ttl)], Reserved(FreshEntry(owner, now, ttl)))
    case Finalize(key, owner, now, succeeded, policy, evidence) =>
      if key !in reg then (reg, MissingEntry)
      else if Refuses(reg, key, owner) then (reg, OwnerMismatch(reg[key]))
      else
        var e := Updated(reg[key], now, succeeded, policy, evidence);
        (reg[key := e], Finalized(e))
  }

  /**
   * A reservation is granted exactly when there is no entry, or it has run out, or it is neither pending nor succeeded;
   * a refusal shows the entry, as what it is.
   */
  lemma ReserveGrantedIff(reg: Registry, key: string, owner: string, now: int, ttl: int)
    ensures var (reg', reply) := Apply(reg, Reserve(key, owner, now, ttl));
            && (reply.Reserved? <==>
                  key !in reg || reg[key].expiresAt <= now || reg[key].status == Failed || reg[key].status == Expired)
            && (reply.Reserved? ==>
                  && reg' == reg[key := reply.entry] && reply.entry.status == Pending && reply.entry.leaseOwner == owner
                  && reply.entry.createdAt == reply.entry.updatedAt == now && reply.entry.expiresAt == now + ttl
                  && reply.entry.policyDecisionId == None && reply.entry.evidenceId == None)
            && (!reply.Reserved? ==>
                  && reg' == reg && key in reg
                  && reply == (if reg[key].status == Succeeded then DuplicateSucceeded(reg[key])
                               else DuplicatePending(reg[key])))
  {
  }

  predicate NotGiven(field: Option<string>) {
    field == None || field == Some("")
  }

  /**
   * A report is accepted unless there is no entry or another owner holds it; it sets the status and keeps the expiry.
   */
  lemma FinalizeSays(reg: Registry, c: Command)
    requires c.Finalize?
    ensures var (reg', reply) := Apply(reg, c);
            && (reply == MissingEntry <==> c.key !in reg)
            && (reply.OwnerMismatch? <==>
                  c.key in reg && !NotGiven(c.onBehalfOf) && Some(reg[c.key].leaseOwner) != c.onBehalfOf)
            && (reply.Finalized? <==> !reply.OwnerMismatch? && reply != MissingEntry)
            && (reply.OwnerMismatch? ==> reply.entry == reg[c.key])
            && (!reply.Finalized? ==> reg' == reg)
            && (reply.Finalized? ==>
                  && reg' == reg[c.key := reply.entry]
                  && var e, e' := reg[c.key], reply.entry;
                  && e'.status == (if c.succeeded then Succeeded else Failed) && e'.updatedAt == c.now
                  && e'.leaseOwner == e.leaseOwner && e'.createdAt == e.createdAt && e'.expiresAt == e.expiresAt
                  && e'.policyDecisionId ==
                       (if NotGiven(c.policyDecisionId) then e.policyDecisionId else c.policyDecisionId)
                  && e'.evidenceId == (if NotGiven(c.evidenceId) then e.evidenceId else c.evidenceId))
  {
  }

  class InMemoryDedupRegistryPort {
    var registry: Registry

    constructor (registry: Registry)
      ensures this.registry == registry
    {
      this.registry := registry;
    }

    /** An expired entry is first marked so, then replaced. */
    method ReserveDedupEntry(key: string, owner: string, now: int, ttl: int) returns (reserved: bool, entry: Entry)
      modifies this
      ensures reserved <==> !Blocks(old(registry), key, now)
      ensures registry == if reserved then old(registry)[key := entry] else old(registry)
      ensures if reserved then entry == FreshEntry(owner, now, ttl) else key in registry && entry == registry[key]
    {
      if key in registry {
        var current := registry[key];
        if current.expiresAt <= now {
          registry := registry[key := current.(status := Expired, updatedAt := now)];
        } else if current.status == Pending || current.status == Succeeded {
          return false, current;
        }
      }
      entry := Entry(Pending, owner, now, now, now + ttl, None, None);
      registry := registry[key := entry];
      reserved := true;
    }

    method FinalizeDedupEntry(key: string, now: int, succeeded: bool, policy: Option<string>, evidence: Option<string>)
      returns (entry: Option<Entry>)
      modifies this
      ensures (registry, if entry.Some? then Finalized(entry.value) else MissingEntry)
           == Apply(old(registry), Finalize(key, None, now, succeeded, policy, evidence))
    {
      if key !in registry {
        return None;
      }
      var updated := registry[key].(status := if succeeded then Succeeded else Failed, updatedAt := now);
      if policy.Some? && policy.value != "" {
        updated := updated.(policyDecisionId := policy);
      }
      if evidence.Some? && evidence.value != "" {
        updated := updated.(evidenceId := evidence);
      }
      registry := registry[key := updated];
      entry := Some(updated);
    }

    method ReserveKey(key: string, owner: string, now: int, ttl: int) returns (reply: Reply)
      modifies this
      ensures (registry, reply) == Apply(old(registry), Reserve(key, owner, now, ttl))
    {
      var reserved, entry := ReserveDedupEntry(key, owner, now, ttl);
      if reserved {
        return Reserved(entry);
      }
      reply := if entry.status == Pending then DuplicatePending(entry) else DuplicateSucceeded(entry);
    }

    method FinalizeKey(key: string, owner: Option<string>, now: int, succeeded: bool,
                       policy: Option<string>, evidence: Option<string>)
      returns (reply: Reply)
      modifies this
      ensures (registry, reply) == Apply(old(registry), Finalize(key, owner, now, succeeded, policy, evidence))
    {
      if key !in registry {
        return MissingEntry;
      }
      if owner.Some? && owner.value != "" && registry[key].leaseOwner != owner.value {
        return OwnerMismatch(registry[key]);
      }
      var entry := FinalizeDedupEntry(key, now, succeeded, policy, evidence);
      reply := Finalized(entry.value);
    }
  }

  function ApplyAll(reg: Registry, cmds: seq<Command>): Registry {
    if cmds == [] then reg else Apply(ApplyAll(reg, cmds[..|cmds| - 1]), cmds[|cmds| - 1]).0
  }

  predicate ClockForward(start: int, cmds: seq<Command>) {
    && (forall i | 0 <= i < |cmds| :: start <= cmds[i].now)
    && (forall i, j | 0 <= i < j < |cmds| :: cmds[i].now <= cmds[j].now)
  }

  /** Finalizing `key` names an owner, and `owner` does not give its reservation up as failed. */
  predicate KeepsReservation(cmds: seq<Command>, key: string, owner: string) {
    forall c | c in cmds && c.Finalize? && c.key == key ::
      c.onBehalfOf.Some? && c.onBehalfOf.value != "" && (c.onBehalfOf.value == owner ==> c.succeeded)
  }

  predicate Held(reg: Registry, key: string, owner: string, until: int) {
    && key in reg && reg[key].leaseOwner == owner && reg[key].expiresAt == until
    && (reg[key].status == Pending || reg[key].status == Succeeded)
  }

  lemma {:induction false} StaysHeld(reg: Registry, cmds: seq<Command>, key: string, owner: string, until: int)
    requires Held(reg, key, owner, until) && KeepsReservation(cmds, key, owner)
    requires forall c | c in cmds && c.Reserve? :: c.now < until
    ensures Held(ApplyAll(reg, cmds), key, owner, until)
    decreases |cmds|
  {
    if cmds != [] {
      var init, last := cmds[..|cmds| - 1], cmds[|cmds| - 1];
      StaysHeld(reg, init, key, owner, until);
      assert last in cmds;
    }
  }

  /**
   * At most once: after a grant at `t`, no other reservation of the key succeeds before `t + ttl`, whatever else
   * happens, unless the grantee itself reports failure.
   */
  lemma AtMostOnce(reg: Registry, key: string, owner: string, t: int, ttl: int, cmds: seq<Command>, i: nat)
    requires Apply(reg, Reserve(key, owner, t, ttl)).1.Reserved?
    requires ClockForward(t, cmds) && KeepsReservation(cmds, key, owner)
    requires i < |cmds| && cmds[i].Reserve? && cmds[i].key == key && cmds[i].now < t + ttl
    ensures var granted := Apply(reg, Reserve(key, owner, t, ttl)).0;
            !Apply(ApplyAll(granted, cmds[..i]), cmds[i]).1.Reserved?
  {
    var granted := Apply(reg, Reserve(key, owner, t, ttl)).0;
    forall c | c in cmds[..i] ensures c in cmds && c.now <= cmds[i].now {
    }
    StaysHeld(granted, cmds[..i], key, owner, t + ttl);
  }

  // ----- Exactly when a reservation is freed -----

  /** The registry takes a report on a reservation of `owner`: it names that owner, or none. */
  predicate Accepts(owner: string, c: Command, key: string) {
    c.Finalize? && c.key == key && (c.onBehalfOf.None? || c.onBehalfOf.value == "" || c.onBehalfOf.value == owner)
  }

  /** The last report on `key` that is taken, if any, and whether it is one of success. */
  function LastReport(cmds: seq<Command>, key: string, owner: string): Option<bool> {
    if cmds == [] then None
    else if Accepts(owner, cmds[|cmds| - 1], key) then Some(cmds[|cmds| - 1].succeeded)
    else LastReport(cmds[..|cmds| - 1], key, owner)
  }

  predicate GrantedAt(reg: Registry, cmds: seq<Command>, key: string, i: nat)
    requires i < |cmds|
  {
    cmds[i].Reserve? && cmds[i].key == key && Apply(ApplyAll(reg, cmds[..i]), cmds[i]).1.Reserved?
  }

  predicate NeverGranted(reg: Registry, cmds: seq<Command>, key: string) {
    forall i | 0 <= i < |cmds| :: !GrantedAt(reg, cmds, key, i)
  }

  function Reported(report: Option<bool>): Status {
    match report
    case None => Pending
    case Some(ok) => if ok then Succeeded else Failed
  }

  /** The entry of a reservation that nobody took over: only its status depends on what was reported. */
  predicate Standing(reg: Registry, key: string, owner: string, until: int, status: Status) {
    key in reg && reg[key].leaseOwner == owner && reg[key].expiresAt == until && reg[key].status == status
  }

  lemma PrefixNeverGranted(reg: Registry, cmds: seq<Command>, key: string, n: nat)
    requires n <= |cmds| && forall i | 0 <= i < n :: !GrantedAt(reg, cmds, key, i)
    ensures NeverGranted(reg, cmds[..n], key)
  {
    forall i | 0 <= i < n ensures !GrantedAt(reg, cmds[..n], key, i) {
      assert cmds[..n][..i] == cmds[..i];
      assert !GrantedAt(reg, cmds, key, i);
    }
  }

  lemma {:induction false} StatusFollowsReports(
      reg: Registry, cmds: seq<Command>, key: string, owner: string, until: int)
    requires Standing(reg, key, owner, until, Pending) && NeverGranted(reg, cmds, key)
    ensures Standing(ApplyAll(reg, cmds), key, owner, until, Reported(LastReport(cmds, key, owner)))
    decreases |cmds|
  {
    if cmds != [] {
      var n := |cmds| - 1;
      PrefixNeverGranted(reg, cmds, key, n);
      StatusFollowsReports(reg, cmds[..n], key, owner, until);
      assert !GrantedAt(reg, cmds, key, n);
    }
  }

  /**
   * As long as a reservation has not been taken over, the next one of the key before it expires is granted exactly
   * when the last report the registry took, one that names the holder or nobody, was a failure.
   */
  lemma FreedIffFailureReported(
      reg: Registry, key: string, owner: string, t: int, ttl: int, cmds: seq<Command>, next: Command)
    requires Apply(reg, Reserve(key, owner, t, ttl)).1.Reserved?
    requires NeverGranted(Apply(reg, Reserve(key, owner, t, ttl)).0, cmds, key)
    requires next.Reserve? && next.key == key && next.now < t + ttl
    ensures Apply(ApplyAll(Apply(reg, Reserve(key, owner, t, ttl)).0, cmds), next).1.Reserved?
       <==> LastReport(cmds, key, owner) == Some(false)
  {
    StatusFollowsReports(Apply(reg, Reserve(key, owner, t, ttl)).0, cmds, key, owner, t + ttl);
  }

  /** A reservation of `key` that finds the last report taken on it, so far, to be a failure. */
  predicate FollowsFailure(cmds: seq<Command>, key: string, owner: string, i: nat)
    requires i < |cmds|
  {
    cmds[i].Reserve? && cmds[i].key == key && LastReport(cmds[..i], key, owner) == Some(false)
  }

  /**
   * So over any commands before the expiry, exclusion is broken exactly when some reservation of the key follows a
   * failure report that names the holder or nobody, with no later report of success taken in between.
   */
  lemma ExclusionBrokenIff(reg: Registry, key: string, owner: string, t: int, ttl: int, cmds: seq<Command>)
    requires Apply(reg, Reserve(key, owner, t, ttl)).1.Reserved?
    requires forall c | c in cmds && c.Reserve? :: c.now < t + ttl
    ensures !NeverGranted(Apply(reg, Reserve(key, owner, t, ttl)).0, cmds, key)
       <==> exists i | 0 <= i < |cmds| :: FollowsFailure(cmds, key, owner, i)
  {
    var granted := Apply(reg, Reserve(key, owner, t, ttl)).0;
    if i :| 0 <= i < |cmds| && GrantedAt(granted, cmds, key, i) {
      var first := FirstGrant(granted, cmds, key, i);
      FreedIffFailureReported(reg, key, owner, t, ttl, cmds[..first], cmds[first]);
      assert FollowsFailure(cmds, key, owner, first);
    } else if i :| 0 <= i < |cmds| && FollowsFailure(cmds, key, owner, i) {
      PrefixNeverGranted(granted, cmds, key, i);
      FreedIffFailureReported(reg, key, owner, t, ttl, cmds[..i], cmds[i]);
      assert GrantedAt(granted, cmds, key, i);
    }
  }

  lemma {:induction false} FirstGrant(reg: Registry, cmds: seq<Command>, key: string, i: nat) returns (first: nat)
    requires i < |cmds| && GrantedAt(reg, cmds, key, i)
    ensures first <= i && GrantedAt(reg, cmds, key, first) && NeverGranted(reg, cmds[..first], key)
    decreases i
  {
    if j :| 0 <= j < i && GrantedAt(reg, cmds, key, j) {
      first := FirstGrant(reg, cmds, key, j);
    } else {
      first := i;
      PrefixNeverGranted(reg, cmds, key, i);
    }
  }

  /** Directly after the grantee reports failure the next reservation of the key succeeds. */
  lemma FailureFreesTheKey(reg: Registry, key: string, owner: string, until: int, now: int, next: Command)
    requires Held(reg, key, owner, until) && owner != "" && next.Reserve? && next.key == key
    ensures var failed := Apply(reg, Finalize(key, Some(owner), now, false, None, None));
            failed.1.Finalized? && Apply(failed.0, next).1.Reserved?
  {
  }

  /**
   * A finalize that names no owner, the form the git lifecycle uses, can break it: the first holder's late report
   * releases the second holder's live reservation.
   */
  lemma OwnerlessFinalizeBreaksExclusion(key: string)
    ensures var a, b, c := Reserve(key, "a", 0, 10), Reserve(key, "b", 12, 10), Reserve(key, "c", 14, 10);
            var late := Finalize(key, None, 13, false, None, None);
            var r1 := Apply(map[], a);
            var r2 := Apply(r1.0, b);
            var r3 := Apply(Apply(r2.0, late).0, c);
            r1.1.Reserved? && r2.1.Reserved? && r3.1.Reserved? && c.now < b.now + b.ttl
  {
  }
}
