/** The Redis lease store: each request is a few commands, between which other clients and key expiry interleave. */
module RedisLock {
  import opened Options
  import LS = LockStore

  type Client = nat

  /** Where a client stands inside a request; `cur` is the value it read with GET. */
  datatype Pc =
    | Acquiring(op: LS.Op, token: nat)
    | Renewing(op: LS.Op, cur: LS.Lease)
    | Releasing(op: LS.Op, cur: LS.Lease)
    | Validating(op: LS.Op, cur: LS.Lease)

  /** `granted` is the history of grants, for the proofs only: nothing reads it. */
  datatype RedisState = RedisState(
    leases: map<string, LS.Lease>,
    counters: map<string, nat>,
    clients: map<Client, Pc>,
    granted: set<(string, nat)>)

  /** One command of a client, or the server dropping a key. A client absent from `clients` is between requests. */
  datatype Command =
    | Incr(c: Client, op: LS.Op)
    | SetNx(c: Client)
    | Get(c: Client, op: LS.Op)
    | Eval(c: Client)
    | Expire(resource: string)

  /** The effect a command has, and the successful reply it completes, if any. */
  datatype Effect = Effect(state: RedisState, success: Option<(LS.Op, LS.Reply)>)

  function Counter(s: RedisState, r: string): nat {
    GetOr(s.counters, r, 0)
  }

  function Leave(s: RedisState, c: Client): RedisState {
    s.(clients := s.clients - {c})
  }

  /** `None` when the command is not the client's next one. */
  function Step(s: RedisState, cmd: Command): Option<Effect> {
    match cmd
    case Incr(c, op) =>
      if c in s.clients || !op.Acquire? then None
      else
        var token := Counter(s, op.resource) + 1;
        Some(Effect(
          s.(counters := s.counters[op.resource := token], clients := s.clients[c := Acquiring(op, token)]), None))
    case SetNx(c) =>
      if c !in s.clients || !s.clients[c].Acquiring? then None
      else
        var Acquiring(op, token) := s.clients[c];
        if !op.Acquire? then None
        else if op.resource in s.leases then Some(Effect(Leave(s, c), None))
        else
          var lease := LS.Lease(op.resource, op.ownerId, token, op.now, op.now + op.ttl);
          Some(Effect(
            Leave(s, c).(leases := s.leases[op.resource := lease], granted := s.granted + {(op.resource, token)}),
            Some((op, LS.Granted(lease)))))
    case Get(c, op) =>
      if c in s.clients || op.Acquire? then None
      else if op.resource !in s.leases then Some(Effect(s, None))
      else
        var cur := s.leases[op.resource];
        match op {
        case Renew(_, owner, token, now, _) =>
          if LS.ValidateLease(cur, owner, token, now).Some? then Some(Effect(s, None))
          else Some(Effect(s.(clients := s.clients[c := Renewing(op, cur)]), None))
        case Validate(_, owner, token, now) =>
          if LS.ValidateLease(cur, owner, token, now).Some? then Some(Effect(s, None))
          else Some(Effect(s.(clients := s.clients[c := Validating(op, cur)]), None))
        case Release(_, owner, token) =>
          if cur.ownerId != owner || cur.fencingToken != token then Some(Effect(s, None))
          else Some(Effect(s.(clients := s.clients[c := Releasing(op, cur)]), None))
        }
    case Eval(c) =>
      if c !in s.clients || s.clients[c].Acquiring? then None
      else
        var pc := s.clients[c];
        var r := pc.op.resource;
        if r !in s.leases || s.leases[r] != pc.cur then Some(Effect(Leave(s, c), None))
        else
          match pc {
          case Renewing(op, cur) =>
            if !op.Renew? then None
            else
              var renewed := cur.(expiresAt := op.now + op.ttl);
              Some(Effect(Leave(s, c).(leases := s.leases[r := renewed]), Some((op, LS.Renewed(renewed)))))
          case Releasing(op, _) => Some(Effect(Leave(s, c).(leases := s.leases - {r}), Some((op, LS.Reply.Released))))
          case Validating(op, cur) => Some(Effect(Leave(s, c), Some((op, LS.Valid(cur)))))
          }
    case Expire(r) => Some(Effect(s.(leases := s.leases - {r}), None))
  }

  /** What a client that is inside a request has established. */
  predicate PcOk(s: RedisState, pc: Pc) {
    match pc
    case Acquiring(op, token) =>
      op.Acquire? && 0 < token <= Counter(s, op.resource) && (op.resource, token) !in s.granted
    case Renewing(op, cur) =>
      op.Renew? && LS.ValidateLease(cur, op.ownerId, op.token, op.now) == None
    case Releasing(op, cur) =>
      op.Release? && cur.ownerId == op.ownerId && cur.fencingToken == op.token
    case Validating(op, cur) =>
      op.Validate? && LS.ValidateLease(cur, op.ownerId, op.token, op.now) == None
  }

  ghost predicate Inv(s: RedisState) {
    && (forall c | c in s.clients :: PcOk(s, s.clients[c]))
    && (forall c, d | c in s.clients && d in s.clients && c != d :: !SameToken(s.clients[c], s.clients[d]))
    && (forall g | g in s.granted :: g.1 <= Counter(s, g.0))
    && (forall r | r in s.leases :: (r, s.leases[r].fencingToken) in s.granted)
  }

  predicate SameToken(a: Pc, b: Pc) {
    a.Acquiring? && b.Acquiring? && a.op.resource == b.op.resource && a.token == b.token
  }

  lemma InitialInv()
    ensures Inv(RedisState(map[], map[], map[], {}))
  {
  }

  lemma StepKeepsInv(s: RedisState, cmd: Command)
    requires Inv(s) && Step(s, cmd).Some?
    ensures Inv(Step(s, cmd).value.state)
  {
    match cmd {
      case Incr(c, op) => IncrKeepsInv(s, c, op);
      case SetNx(c) => SetNxKeepsInv(s, c);
      case Get(c, op) => GetKeepsInv(s, c, op);
      case Eval(c) => EvalKeepsInv(s, c);
      case Expire(_) =>
        var s' := Step(s, cmd).value.state;
        assert forall c | c in s'.clients :: PcOk(s', s'.clients[c]) <==> PcOk(s, s.clients[c]);
    }
  }

  lemma IncrKeepsInv(s: RedisState, c: Client, op: LS.Op)
    requires Inv(s) && Step(s, Incr(c, op)).Some?
    ensures Inv(Step(s, Incr(c, op)).value.state)
  {
    var s' := Step(s, Incr(c, op)).value.state;
    forall d | d in s'.clients ensures PcOk(s', s'.clients[d]) {
      assert d != c ==> PcOk(s, s.clients[d]);
    }
    forall d | d in s.clients ensures !SameToken(s'.clients[d], s'.clients[c]) {
      assert PcOk(s, s.clients[d]);
    }
  }

  lemma SetNxKeepsInv(s: RedisState, c: Client)
    requires Inv(s) && Step(s, SetNx(c)).Some?
    ensures Inv(Step(s, SetNx(c)).value.state)
  {
    var s' := Step(s, SetNx(c)).value.state;
    assert PcOk(s, s.clients[c]);
    forall d | d in s'.clients ensures PcOk(s', s'.clients[d]) {
      assert PcOk(s, s.clients[d]) && !SameToken(s.clients[c], s.clients[d]);
    }
  }

  lemma GetKeepsInv(s: RedisState, c: Client, op: LS.Op)
    requires Inv(s) && Step(s, Get(c, op)).Some?
    ensures Inv(Step(s, Get(c, op)).value.state)
  {
    var s' := Step(s, Get(c, op)).value.state;
    forall d | d in s'.clients ensures PcOk(s', s'.clients[d]) {
      assert d in s.clients ==> PcOk(s, s.clients[d]);
    }
  }

  lemma EvalKeepsInv(s: RedisState, c: Client)
    requires Inv(s) && Step(s, Eval(c)).Some?
    ensures Inv(Step(s, Eval(c)).value.state)
  {
    var s' := Step(s, Eval(c)).value.state;
    forall d | d in s'.clients ensures PcOk(s', s'.clients[d]) {
      assert PcOk(s, s.clients[d]);
    }
  }

  // ----- Whole runs -----

  function Exec(s: RedisState, cmds: seq<Command>): Option<RedisState>
    decreases |cmds|
  {
    if cmds == [] then Some(s)
    else
      var e := Step(s, cmds[0]);
      if e.None? then None else Exec(e.value.state, cmds[1..])
  }

  /** The successful replies of a run, in the order in which they took effect. */
  function Successes(s: RedisState, cmds: seq<Command>): seq<(LS.Op, LS.Reply)>
    requires Exec(s, cmds).Some?
    decreases |cmds|
  {
    if cmds == [] then []
    else
      var e := Step(s, cmds[0]).value;
      (if e.success.Some? then [e.success.value] else []) + Successes(e.state, cmds[1..])
  }

  // ----- A run is a behaviour of one lock store -----

  /** A successful request taking effect, or the server dropping a key. */
  datatype Happening = Did(op: LS.Op, reply: LS.Reply) | Dropped(resource: string)

  function Happenings(s: RedisState, cmds: seq<Command>): seq<Happening>
    requires Exec(s, cmds).Some?
    decreases |cmds|
  {
    if cmds == [] then []
    else
      var e := Step(s, cmds[0]).value;
      (if e.success.Some? then [Did(e.success.value.0, e.success.value.1)]
       else if cmds[0].Expire? then [Dropped(cmds[0].resource)]
       else []) + Happenings(e.state, cmds[1..])
  }

  function Token(op: LS.Op, reply: LS.Reply): nat {
    if op.Acquire? && reply.Granted? then reply.lease.fencingToken else 0
  }

  /** What the in-memory store makes of a request when its counter stands one below the token to be issued. */
  function MemoryStep(leases: map<string, LS.Lease>, op: LS.Op, token: nat): (map<string, LS.Lease>, LS.Reply) {
    var (after, reply) := LS.Apply(LS.LockState(leases, if op.Acquire? && token > 0 then token - 1 else 0), op);
    (after.records, reply)
  }

  /**
   * One lock store goes from `leases` to `final`: each request gets the reply and has the effect of the in-memory
   * operation, each grant carries a token not issued on its resource before, and between requests a lease may drop.
   */
  ghost predicate Behaves(leases: map<string, LS.Lease>, issued: set<(string, nat)>, events: seq<Happening>,
                          final: map<string, LS.Lease>)
    decreases |events|
  {
    if events == [] then leases == final
    else
      match events[0]
      case Dropped(r) => Behaves(leases - {r}, issued, events[1..], final)
      case Did(op, reply) =>
        var token := Token(op, reply);
        && MemoryStep(leases, op, token).1 == reply
        && (op.Acquire? ==> reply.Granted? && token > 0 && (op.resource, token) !in issued)
        && Behaves(MemoryStep(leases, op, token).0, if op.Acquire? then issued + {(op.resource, token)} else issued,
                   events[1..], final)
  }

  /**
   * One command: a successful request takes effect there, from the very leases Redis holds, just as the in-memory
   * operation does; all other commands leave the leases alone, but for the expiry of a key.
   */
  lemma StepRefinesLockStore(s: RedisState, cmd: Command)
    requires Inv(s) && Step(s, cmd).Some?
    ensures var Effect(s', success) := Step(s, cmd).value;
            match success
            case Some((op, reply)) =>
              var token := Token(op, reply);
              && MemoryStep(s.leases, op, token) == (s'.leases, reply)
              && (op.Acquire? <==> reply.Granted?) && (op.Acquire? ==> token > 0 && (op.resource, token) !in s.granted)
              && s'.granted == if op.Acquire? then s.granted + {(op.resource, token)} else s.granted
            case None =>
              s'.granted == s.granted && s'.leases == if cmd.Expire? then s.leases - {cmd.resource} else s.leases
  {
    match cmd {
      case SetNx(c) => assert PcOk(s, s.clients[c]);
      case Eval(c) => assert PcOk(s, s.clients[c]);
      case _ =>
    }
  }

  lemma {:induction false} RunBehaves(s: RedisState, cmds: seq<Command>)
    requires Inv(s) && Exec(s, cmds).Some?
    ensures Behaves(s.leases, s.granted, Happenings(s, cmds), Exec(s, cmds).value.leases)
    decreases |cmds|
  {
    hide Step, Inv, MemoryStep, Token;
    if cmds != [] {
      var e := Step(s, cmds[0]).value;
      StepRefinesLockStore(s, cmds[0]);
      StepKeepsInv(s, cmds[0]);
      RunBehaves(e.state, cmds[1..]);
      var rest := Happenings(e.state, cmds[1..]);
      if e.success.Some? {
        assert ([Did(e.success.value.0, e.success.value.1)] + rest)[1..] == rest;
      } else if cmds[0].Expire? {
        assert ([Dropped(cmds[0].resource)] + rest)[1..] == rest;
      } else {
        assert [] + rest == rest;
      }
    }
  }

  function Empty(): RedisState {
    RedisState(map[], map[], map[], {})
  }

  /**
   * Over every interleaving of the clients' commands, from an empty server: the successful requests, in the order in
   * which they take effect, are a behaviour of one lock store over the very leases Redis holds; the expiry of a key
   * is the only other change, and every token is fresh on its resource.
   */
  lemma RunRefinesLockStore(cmds: seq<Command>)
    requires Exec(Empty(), cmds).Some?
    ensures Behaves(map[], {}, Happenings(Empty(), cmds), Exec(Empty(), cmds).value.leases)
  {
    InitialInv();
    RunBehaves(Empty(), cmds);
  }

  /** No token is ever granted twice on a resource, whatever clients and key expiry do. */
  lemma {:induction false} TokensAreUnique(s: RedisState, cmds: seq<Command>, i: nat, j: nat)
    requires Inv(s) && Exec(s, cmds).Some? && i < j < |Successes(s, cmds)|
    requires Successes(s, cmds)[i].1.Granted? && Successes(s, cmds)[j].1.Granted?
    requires Successes(s, cmds)[i].0.resource == Successes(s, cmds)[j].0.resource
    ensures Successes(s, cmds)[i].1.lease.fencingToken != Successes(s, cmds)[j].1.lease.fencingToken
    decreases |cmds|
  {
    hide Step, Inv, MemoryStep;
    var e := Step(s, cmds[0]).value;
    StepKeepsInv(s, cmds[0]);
    StepRefinesLockStore(s, cmds[0]);
    if e.success.None? {
      TokensAreUnique(e.state, cmds[1..], i, j);
    } else if i > 0 {
      TokensAreUnique(e.state, cmds[1..], i - 1, j - 1);
    } else {
      NotGrantedAgain(e.state, cmds[1..], (e.success.value.0.resource, e.success.value.1.lease.fencingToken), j - 1);
    }
  }

  lemma {:induction false} NotGrantedAgain(s: RedisState, cmds: seq<Command>, g: (string, nat), i: nat)
    requires Inv(s) && Exec(s, cmds).Some? && g in s.granted && i < |Successes(s, cmds)|
    ensures var (op, reply) := Successes(s, cmds)[i];
            reply.Granted? ==> (op.resource, reply.lease.fencingToken) != g
    decreases |cmds|
  {
    hide Step, Inv, MemoryStep;
    var e := Step(s, cmds[0]).value;
    StepKeepsInv(s, cmds[0]);
    StepRefinesLockStore(s, cmds[0]);
    if e.success.None? {
      NotGrantedAgain(e.state, cmds[1..], g, i);
    } else if i > 0 {
      NotGrantedAgain(e.state, cmds[1..], g, i - 1);
    }
  }

  /**
   * The token was granted on `r` and the key no longer holds it: it expired, was released or was granted to another.
   */
  predicate Gone(s: RedisState, r: string, token: nat) {
    (r, token) in s.granted && (r in s.leases ==> s.leases[r].fencingToken != token)
  }

  lemma StepKeepsGone(s: RedisState, cmd: Command, r: string, token: nat)
    requires Inv(s) && Gone(s, r, token) && Step(s, cmd).Some?
    ensures var Effect(s', success) := Step(s, cmd).value;
            Gone(s', r, token) && (success.Some? ==> !LS.Presents(success.value.0, r, token))
  {
    match cmd {
      case SetNx(c) => assert PcOk(s, s.clients[c]);
      case Eval(c) => assert PcOk(s, s.clients[c]);
      case _ =>
    }
  }

  /** From then on no renewal, validation or release that presents it succeeds. */
  lemma {:induction false} GoneForGood(s: RedisState, cmds: seq<Command>, r: string, token: nat)
    requires Inv(s) && Gone(s, r, token) && Exec(s, cmds).Some?
    ensures forall p | p in Successes(s, cmds) :: !LS.Presents(p.0, r, token)
    decreases |cmds|
  {
    if cmds != [] {
      StepKeepsInv(s, cmds[0]);
      StepKeepsGone(s, cmds[0], r, token);
      GoneForGood(Step(s, cmds[0]).value.state, cmds[1..], r, token);
    }
  }

  // ----- When a request succeeds -----

  predicate OfClient(cmd: Command, c: Client) {
    !cmd.Expire? && cmd.c == c
  }

  lemma {:induction false} OthersKeepPlace(s: RedisState, cmds: seq<Command>, c: Client)
    requires Exec(s, cmds).Some? && forall cmd | cmd in cmds :: !OfClient(cmd, c)
    ensures var s' := Exec(s, cmds).value;
            (c in s'.clients <==> c in s.clients) && (c in s.clients ==> s'.clients[c] == s.clients[c])
    decreases |cmds|
  {
    if cmds != [] {
      OtherKeepsPlace(s, cmds[0], c);
      OthersKeepPlace(Step(s, cmds[0]).value.state, cmds[1..], c);
    }
  }

  lemma OtherKeepsPlace(s: RedisState, cmd: Command, c: Client)
    requires Step(s, cmd).Some? && !OfClient(cmd, c)
    ensures var s' := Step(s, cmd).value.state;
            (c in s'.clients <==> c in s.clients) && (c in s.clients ==> s'.clients[c] == s.clients[c])
  {
  }

  /**
   * An acquire takes the next token and succeeds exactly when the key is free at its second command, whatever the
   * others do in between.
   */
  lemma AcquireSucceedsIff(s: RedisState, c: Client, op: LS.Op, between: seq<Command>)
    requires op.Acquire? && c !in s.clients && forall cmd | cmd in between :: !OfClient(cmd, c)
    requires Exec(Step(s, Incr(c, op)).value.state, between).Some?
    ensures var mid := Exec(Step(s, Incr(c, op)).value.state, between).value;
            var end := Step(mid, SetNx(c));
            && end.Some? && c !in end.value.state.clients
            && (end.value.success.Some? <==> op.resource !in mid.leases)
            && (end.value.success.Some? ==>
                  var lease := LS.Lease(op.resource, op.ownerId, Counter(s, op.resource) + 1, op.now, op.now + op.ttl);
                  end.value.success == Some((op, LS.Granted(lease))) && op.resource in end.value.state.leases &&
                  end.value.state.leases[op.resource] == lease)
  {
    OthersKeepPlace(Step(s, Incr(c, op)).value.state, between, c);
  }

  /**
   * A renewal, validation or release is over at its first command if the memory store would refuse it there;
   * otherwise it succeeds, with that store's reply, exactly when its second command finds the lease unchanged.
   */
  lemma HolderSucceedsIff(s: RedisState, c: Client, op: LS.Op, between: seq<Command>)
    requires !op.Acquire? && c !in s.clients && forall cmd | cmd in between :: !OfClient(cmd, c)
    requires Exec(Step(s, Get(c, op)).value.state, between).Some?
    ensures var reply := MemoryStep(s.leases, op, 0).1;
            var mid := Exec(Step(s, Get(c, op)).value.state, between).value;
            if reply.Refused? then c !in mid.clients
            else
              && Step(mid, Eval(c)).Some?
              && var end := Step(mid, Eval(c)).value;
              && c !in end.state.clients
              && end.success == if op.resource in mid.leases && mid.leases[op.resource] == s.leases[op.resource]
                                then Some((op, reply)) else None
  {
    OthersKeepPlace(Step(s, Get(c, op)).value.state, between, c);
  }

  // ----- Grants and token order -----

  /** The state before the i-th command. */
  function At(cmds: seq<Command>, i: nat): Option<RedisState>
    requires i <= |cmds|
  {
    Exec(Empty(), cmds[..i])
  }

  lemma {:induction false} ExecSnoc(s: RedisState, cmds: seq<Command>, i: nat)
    requires i < |cmds| && Exec(s, cmds[..i + 1]).Some?
    ensures Exec(s, cmds[..i]).Some?
    ensures Step(Exec(s, cmds[..i]).value, cmds[i]).Some?
    ensures Exec(s, cmds[..i + 1]).value == Step(Exec(s, cmds[..i]).value, cmds[i]).value.state
    decreases i
  {
    hide Step;
    var p := cmds[..i + 1];
    assert p[0] == cmds[0] && p[1..] == cmds[1..][..i];
    if i > 0 {
      ExecSnoc(Step(s, cmds[0]).value.state, cmds[1..], i - 1);
      assert cmds[..i][1..] == cmds[1..][..i - 1];
    } else {
      assert p[1..] == [];
    }
  }

  lemma {:induction false} ExecPrefix(s: RedisState, cmds: seq<Command>, i: nat)
    requires i <= |cmds| && Exec(s, cmds).Some?
    ensures Exec(s, cmds[..i]).Some?
    decreases |cmds| - i
  {
    hide Step;
    if i == |cmds| {
      assert cmds[..i] == cmds;
    } else {
      ExecPrefix(s, cmds, i + 1);
      ExecSnoc(s, cmds, i);
    }
  }

  /** The i-th command runs from `At(cmds, i)` to `At(cmds, i + 1)`. */
  lemma RunAt(cmds: seq<Command>, i: nat)
    requires i < |cmds| && Exec(Empty(), cmds).Some?
    ensures At(cmds, i).Some? && At(cmds, i + 1).Some? && Step(At(cmds, i).value, cmds[i]).Some?
    ensures At(cmds, i + 1).value == Step(At(cmds, i).value, cmds[i]).value.state
  {
    ExecPrefix(Empty(), cmds, i + 1);
    ExecSnoc(Empty(), cmds, i);
  }

  /** The i-th command grants `token` on `r`. */
  predicate Grants(cmds: seq<Command>, i: nat, r: string, token: nat)
    requires i < |cmds|
  {
    && cmds[i].SetNx? && At(cmds, i).Some?
    && var s := At(cmds, i).value;
       cmds[i].c in s.clients && r !in s.leases && Took(s.clients[cmds[i].c], r, token)
  }

  /** That is what the i-th command answers. */
  lemma GrantsIff(cmds: seq<Command>, i: nat, r: string, token: nat)
    requires Exec(Empty(), cmds).Some? && i < |cmds|
    ensures At(cmds, i).Some? && Step(At(cmds, i).value, cmds[i]).Some?
    ensures Grants(cmds, i, r, token) <==>
      var success := Step(At(cmds, i).value, cmds[i]).value.success;
      && success.Some? && success.value.1.Granted?
      && success.value.1.lease.resource == r && success.value.1.lease.fencingToken == token
  {
    hide Exec;
    RunAt(cmds, i);
  }

  /** The client took this token with INCR and has not tried SET NX yet. */
  predicate Took(pc: Pc, r: string, token: nat) {
    pc.Acquiring? && pc.op.Acquire? && pc.op.resource == r && pc.token == token
  }

  /** The last INCR of client `c` before the i-th command. */
  function IncrIndex(cmds: seq<Command>, c: Client, i: nat): (p: nat)
    requires i <= |cmds|
    ensures p < i ==> cmds[p].Incr? && cmds[p].c == c
    ensures p <= i && forall q | p < q < i :: !(cmds[q].Incr? && cmds[q].c == c)
  {
    if i == 0 then 0
    else if cmds[i - 1].Incr? && cmds[i - 1].c == c then i - 1
    else
      var p := IncrIndex(cmds, c, i - 1);
      if p == i - 1 then i else p
  }

  function CounterAt(cmds: seq<Command>, i: nat, r: string): nat
    requires i <= |cmds| && At(cmds, i).Some?
  {
    Counter(At(cmds, i).value, r)
  }

  lemma StepMovesCounter(s: RedisState, cmd: Command, r: string)
    requires Step(s, cmd).Some?
    ensures Counter(Step(s, cmd).value.state, r)
         == Counter(s, r) + if cmd.Incr? && cmd.op.resource == r then 1 else 0
  {
  }

  lemma {:induction false} CounterGrows(cmds: seq<Command>, i: nat, j: nat, r: string)
    requires Exec(Empty(), cmds).Some? && i <= j <= |cmds|
    ensures At(cmds, i).Some? && At(cmds, j).Some? && CounterAt(cmds, i, r) <= CounterAt(cmds, j, r)
    decreases j - i
  {
    hide Step, Counter;
    ExecPrefix(Empty(), cmds, i);
    ExecPrefix(Empty(), cmds, j);
    if i < j {
      CounterGrows(cmds, i, j - 1, r);
      RunAt(cmds, j - 1);
      StepMovesCounter(At(cmds, j - 1).value, cmds[j - 1], r);
    }
  }

  /** One command, seen from a client that holds a token: it keeps it, or it is the one that acts. */
  lemma StepKeepsToken(s: RedisState, cmd: Command, c: Client, r: string, token: nat)
    requires Step(s, cmd).Some?
    requires var s' := Step(s, cmd).value.state; c in s'.clients && Took(s'.clients[c], r, token)
    ensures if cmd.Incr? && cmd.c == c then cmd.op.resource == r && token == Counter(Step(s, cmd).value.state, r)
            else c in s.clients && Took(s.clients[c], r, token)
  {
  }

  /** A token held before the i-th command was taken by the client's last INCR, and held ever since. */
  lemma {:induction false} TokenComesFromIncr(cmds: seq<Command>, i: nat, c: Client, r: string, token: nat)
    requires Exec(Empty(), cmds).Some? && i <= |cmds| && At(cmds, i).Some?
    requires c in At(cmds, i).value.clients && Took(At(cmds, i).value.clients[c], r, token)
    ensures var p := IncrIndex(cmds, c, i);
            && p < i && cmds[p].op.resource == r
            && At(cmds, p + 1).Some? && token == CounterAt(cmds, p + 1, r)
            && forall m | p < m <= i ::
                 At(cmds, m).Some? && c in At(cmds, m).value.clients && Took(At(cmds, m).value.clients[c], r, token)
    decreases i
  {
    hide Step, Counter, Took;
    if i > 0 {
      RunAt(cmds, i - 1);
      StepKeepsToken(At(cmds, i - 1).value, cmds[i - 1], c, r, token);
      if !(cmds[i - 1].Incr? && cmds[i - 1].c == c) {
        TokenComesFromIncr(cmds, i - 1, c, r, token);
      }
    }
  }

  /** A grant ends its request: afterwards the client holds no token until its next INCR. */
  lemma GrantLeaves(cmds: seq<Command>, i: nat, r: string, token: nat)
    requires Exec(Empty(), cmds).Some? && i < |cmds| && Grants(cmds, i, r, token)
    ensures At(cmds, i + 1).Some? && cmds[i].c !in At(cmds, i + 1).value.clients
  {
    RunAt(cmds, i);
  }

  /** Of two INCRs on one resource the later one takes the larger token. */
  lemma LaterIncrTakesMore(cmds: seq<Command>, p: nat, q: nat, r: string)
    requires Exec(Empty(), cmds).Some? && p < q < |cmds|
    requires cmds[q].Incr? && cmds[q].op.resource == r
    ensures At(cmds, p + 1).Some? && At(cmds, q + 1).Some? && CounterAt(cmds, p + 1, r) < CounterAt(cmds, q + 1, r)
  {
    hide Step, Counter;
    CounterGrows(cmds, p + 1, q, r);
    RunAt(cmds, q);
    StepMovesCounter(At(cmds, q).value, cmds[q], r);
  }

  /** Two grants never go back to one INCR. */
  lemma GrantsHaveOwnIncr(cmds: seq<Command>, i: nat, j: nat, r: string, s: nat, t: nat)
    requires Exec(Empty(), cmds).Some? && i < j < |cmds| && Grants(cmds, i, r, s) && Grants(cmds, j, r, t)
    ensures IncrIndex(cmds, cmds[i].c, i) != IncrIndex(cmds, cmds[j].c, j)
  {
    hide Took, At;
    TokenComesFromIncr(cmds, i, cmds[i].c, r, s);
    TokenComesFromIncr(cmds, j, cmds[j].c, r, t);
    GrantLeaves(cmds, i, r, s);
  }

  /**
   * Over all runs: of two grants on one resource, the earlier carries the larger token exactly when its INCR came
   * after the INCR of the later.
   */
  lemma GrantOrderInvertsIff(cmds: seq<Command>, i: nat, j: nat, r: string, s: nat, t: nat)
    requires Exec(Empty(), cmds).Some? && i < j < |cmds| && Grants(cmds, i, r, s) && Grants(cmds, j, r, t)
    ensures s > t <==> IncrIndex(cmds, cmds[i].c, i) > IncrIndex(cmds, cmds[j].c, j)
    ensures s != t
  {
    hide Took, At, CounterAt, Step;
    var p, q := IncrIndex(cmds, cmds[i].c, i), IncrIndex(cmds, cmds[j].c, j);
    GrantsHaveOwnIncr(cmds, i, j, r, s, t);
    GrantStart(cmds, i, r, s);
    GrantStart(cmds, j, r, t);
    if p < q { LaterIncrTakesMore(cmds, p, q, r); } else { LaterIncrTakesMore(cmds, q, p, r); }
  }

  lemma GrantStart(cmds: seq<Command>, i: nat, r: string, token: nat)
    requires Exec(Empty(), cmds).Some? && i < |cmds| && Grants(cmds, i, r, token)
    ensures var p := IncrIndex(cmds, cmds[i].c, i);
            && p < i && cmds[p].Incr? && cmds[p].op.resource == r
            && At(cmds, p + 1).Some? && token == CounterAt(cmds, p + 1, r)
            && forall m | p < m <= i :: Waits(cmds, m, cmds[i].c, r)
  {
    TokenComesFromIncr(cmds, i, cmds[i].c, r, token);
  }

  /** Before the m-th command client `c` stands between INCR and SET NX on `r`. */
  predicate Waits(cmds: seq<Command>, m: nat, c: Client, r: string)
    requires m <= |cmds|
  {
    At(cmds, m).Some? && c in At(cmds, m).value.clients &&
    At(cmds, m).value.clients[c].Acquiring? && At(cmds, m).value.clients[c].op.resource == r
  }

  /** INCR on `r` runs only while no other client stands between INCR and SET NX on it. */
  ghost predicate OneAtATime(cmds: seq<Command>, r: string) {
    forall p, c | 0 <= p < |cmds| && cmds[p].Incr? && cmds[p].op.resource == r && c != cmds[p].c ::
      !Waits(cmds, p, c, r)
  }

  /** If the earlier grant has the later INCR, the other client was waiting when that INCR ran. */
  lemma InversionMeansWaiting(cmds: seq<Command>, i: nat, j: nat, r: string, s: nat, t: nat)
    requires Exec(Empty(), cmds).Some? && i < j < |cmds| && Grants(cmds, i, r, s) && Grants(cmds, j, r, t)
    ensures var p, q := IncrIndex(cmds, cmds[i].c, i), IncrIndex(cmds, cmds[j].c, j);
            q < p ==>
              cmds[p].Incr? && cmds[p].op.resource == r && cmds[j].c != cmds[p].c && Waits(cmds, p, cmds[j].c, r)
  {
    hide At, CounterAt, Step, Waits, Took;
    GrantStart(cmds, i, r, s);
    GrantStart(cmds, j, r, t);
  }

  /** Under that guard successive grants on a resource do carry increasing tokens. */
  lemma GuardedGrantsIncrease(cmds: seq<Command>, i: nat, j: nat, r: string, s: nat, t: nat)
    requires Exec(Empty(), cmds).Some? && OneAtATime(cmds, r)
    requires i < j < |cmds| && Grants(cmds, i, r, s) && Grants(cmds, j, r, t)
    ensures s < t
  {
    hide At, CounterAt, Step, Waits, Took;
    GrantOrderInvertsIff(cmds, i, j, r, s, t);
    InversionMeansWaiting(cmds, i, j, r, s, t);
  }

  /**
   * Unlike in memory, grants need not come in token order: INCR and SET NX are two commands. Here the second
   * grant on a resource carries the smaller token.
   */
  lemma GrantOrderCanInvert()
    ensures var s := RedisState(map[], map[], map[], {});
            var a, b := LS.Acquire("r", "a", 0, 10), LS.Acquire("r", "b", 0, 10);
            var cmds := [Incr(0, a), Incr(1, b), SetNx(1), Expire("r"), SetNx(0)];
            && Exec(s, cmds).Some?
            && Successes(s, cmds) ==
                 [(b, LS.Granted(LS.Lease("r", "b", 2, 0, 10))), (a, LS.Granted(LS.Lease("r", "a", 1, 0, 10)))]
  {
    var a, b := LS.Acquire("r", "a", 0, 10), LS.Acquire("r", "b", 0, 10);
    var s0 := RedisState(map[], map[], map[], {});
    var s1 := Step(s0, Incr(0, a)).value.state;
    var s2 := Step(s1, Incr(1, b)).value.state;
    var s3 := Step(s2, SetNx(1)).value.state;
    var s4 := Step(s3, Expire("r")).value.state;
    var s5 := Step(s4, SetNx(0)).value.state;
    assert Exec(s4, [SetNx(0)]) == Some(s5);
    assert Exec(s3, [Expire("r"), SetNx(0)]) == Some(s5);
    assert Exec(s2, [SetNx(1), Expire("r"), SetNx(0)]) == Some(s5);
    assert Exec(s1, [Incr(1, b), SetNx(1), Expire("r"), SetNx(0)]) == Some(s5);
    assert Successes(s4, [SetNx(0)]) == [(a, LS.Granted(LS.Lease("r", "a", 1, 0, 10)))];
    assert Successes(s3, [Expire("r"), SetNx(0)]) == Successes(s4, [SetNx(0)]);
    assert Successes(s2, [SetNx(1), Expire("r"), SetNx(0)])
      == [(b, LS.Granted(LS.Lease("r", "b", 2, 0, 10)))] + Successes(s3, [Expire("r"), SetNx(0)]);
    assert Successes(s1, [Incr(1, b), SetNx(1), Expire("r"), SetNx(0)])
        == Successes(s2, [SetNx(1), Expire("r"), SetNx(0)]);
  }
}
