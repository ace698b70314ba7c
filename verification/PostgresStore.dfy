/**
 * The PostgreSQL store: a `record*` call loads the latest snapshot first and inserts its own one later, in a
 * transaction that checks the revision. Between the two, other clients commit.
 */
module PostgresStore {
  import opened Options
  import opened StateStore

  type Client = nat

  datatype Origin = Recorded(change: Change) | Saved
  datatype Row = Row(snapshot: Project, origin: Origin)

  /** A call between its load and its insert: what it loaded, its changed copy, the revision it counts on. */
  datatype Pending = Pending(change: Change, base: Project, copy: Project, expected: int)

  /**
   * The logs of artifacts and decisions have the id as primary key. `handedOut` is the history of revisions callers
   * have been given, for stating their discipline.
   */
  datatype Db = Db(
    initial: Project, rows: seq<Row>, pending: map<Client, Pending>,
    artifactLog: set<Id>, decisionLog: set<Id>, handedOut: set<int>)

  function Fresh(initial: Project): Db {
    Db(initial, [], map[], {}, {}, {})
  }

  datatype Step =
    | Begin(c: Client, change: Change, expected: Option<int>)
    | Insert(c: Client)
    | Save(next: Project, expected: Option<int>)
    | Read

  /** The state after `k` snapshots. */
  function At(initial: Project, rows: seq<Row>, k: nat): Project
    requires k <= |rows|
  {
    if k == 0 then initial else rows[k - 1].snapshot
  }

  function Latest(db: Db): Project {
    At(db.initial, db.rows, |db.rows|)
  }

  /** The transaction of an insert: lock, compare, append. */
  function InsertSnapshot(db: Db, next: Project, expected: int, origin: Origin): (Db, Outcome) {
    var current := |db.rows|;
    if expected < 0 then (db, InvalidExpectation(expected))
    else if expected != current then (db, Conflict(expected, current))
    else
      (db.(rows := db.rows + [Row(WithRevision(next, current + 1), origin)], handedOut := db.handedOut + {current + 1}),
       Committed(current + 1))
  }

  function BeginCall(db: Db, c: Client, change: Change, expected: Option<int>): (Db, Outcome) {
    var copy := ApplyChange(Latest(db), change);
    if copy.None? then (db, MissingTask(MissingId(change)))
    else
      var p := Pending(change, Latest(db), copy.value, ExpectedRevision(copy.value, expected));
      (db.(pending := db.pending[c := p]), Committed(0))
  }

  function InsertPending(db: Db, c: Client): (Db, Outcome)
    requires c in db.pending
  {
    var p := db.pending[c];
    var db0 := db.(pending := db.pending - {c});
    if Logged(db, p.change) then (db0, DuplicateEntry(LogId(p.change)))
    else
      var (db1, outcome) := InsertSnapshot(db0, p.copy, p.expected, Recorded(p.change));
      (if outcome.Committed? then WithLog(db1, p.change) else db1, outcome)
  }

  /** The log insert of a call, which comes first in its transaction, would violate the primary key. */
  predicate Logged(db: Db, change: Change) {
    match change
    case AddArtifact(a) => a.id in db.artifactLog
    case AddDecision(d) => d.id in db.decisionLog
    case _ => false
  }

  function LogId(change: Change): Id {
    match change
    case AddArtifact(a) => a.id
    case AddDecision(d) => d.id
    case _ => ""
  }

  function WithLog(db: Db, change: Change): Db {
    match change
    case AddArtifact(a) => db.(artifactLog := db.artifactLog + {a.id})
    case AddDecision(d) => db.(decisionLog := db.decisionLog + {d.id})
    case _ => db
  }

  /** `None` when the step is not one its client can take. The outcome of a first half is of no account. */
  function Next(db: Db, step: Step): Option<(Db, Outcome)> {
    match step
    case Begin(c, change, expected) => if c in db.pending then None else Some(BeginCall(db, c, change, expected))
    case Insert(c) => if c !in db.pending then None else Some(InsertPending(db, c))
    case Save(next, expected) => Some(InsertSnapshot(db, next, ExpectedRevision(next, expected), Saved))
    case Read =>
      Some((db.(handedOut := db.handedOut + {Latest(db).revision}), Committed(Latest(db).revision)))
  }

  /** A call names no revision that does not exist yet when it loads. */
  predicate NotAhead(db: Db, expected: Option<int>) {
    expected.Some? ==> expected.value <= |db.rows|
  }

  predicate Disciplined(db: Db, step: Step) {
    step.Begin? ==> NotAhead(db, step.expected)
  }

  /** The row is the state before it plus exactly the recorded change, one revision up. */
  predicate Extends(before: Project, row: Row) {
    row.origin.Recorded? ==>
      var next := ApplyChange(before, row.origin.change);
      next.Some? && row.snapshot == WithRevision(next.value, before.revision + 1)
  }

  predicate PendingOk(initial: Project, rows: seq<Row>, p: Pending) {
    && p.base.revision <= |rows|
    && p.base == At(initial, rows, p.base.revision)
    && ApplyChange(p.base, p.change) == Some(p.copy)
    && p.expected <= p.base.revision
  }

  predicate RowsOk(initial: Project, rows: seq<Row>) {
    && (forall k | 0 <= k <= |rows| :: At(initial, rows, k).revision == k)
    && (forall k | 0 <= k < |rows| :: Extends(At(initial, rows, k), rows[k]))
  }

  predicate AllPendingOk(initial: Project, rows: seq<Row>, pending: map<Client, Pending>) {
    forall c | c in pending :: PendingOk(initial, rows, pending[c])
  }

  predicate HandedOutOk(rows: seq<Row>, handedOut: set<int>) {
    forall r | r in handedOut :: r <= |rows|
  }

  predicate Inv(db: Db) {
    && RowsOk(db.initial, db.rows)
    && AllPendingOk(db.initial, db.rows, db.pending)
    && HandedOutOk(db.rows, db.handedOut)
  }

  lemma ChangeKeepsRevision(p: Project, c: Change)
    requires ApplyChange(p, c).Some?
    ensures ApplyChange(p, c).value.revision == p.revision
  {
  }

  lemma AppendRow(initial: Project, rows: seq<Row>, pending: map<Client, Pending>, row: Row)
    requires RowsOk(initial, rows) && AllPendingOk(initial, rows, pending)
    requires Extends(At(initial, rows, |rows|), row) && row.snapshot.revision == |rows| + 1
    ensures RowsOk(initial, rows + [row]) && AllPendingOk(initial, rows + [row], pending)
  {
    hide ApplyChange, Extends;
    forall k | 0 <= k <= |rows| ensures At(initial, rows + [row], k) == At(initial, rows, k) {
    }
    forall k | 0 <= k < |rows + [row]| ensures Extends(At(initial, rows + [row], k), (rows + [row])[k]) {
      if k < |rows| { assert Extends(At(initial, rows, k), rows[k]); }
    }
    forall c | c in pending ensures PendingOk(initial, rows + [row], pending[c]) {
      assert PendingOk(initial, rows, pending[c]);
    }
  }

  lemma InsertKeepsInv(db: Db, next: Project, expected: int, origin: Origin)
    requires Inv(db)
    requires expected == |db.rows| ==> Extends(Latest(db), Row(WithRevision(next, |db.rows| + 1), origin))
    ensures Inv(InsertSnapshot(db, next, expected, origin).0)
  {
    hide Extends, RowsOk, AllPendingOk, WithRevision;
    if expected == |db.rows| {
      AppendRow(db.initial, db.rows, db.pending, Row(WithRevision(next, |db.rows| + 1), origin));
    }
  }

  lemma BeginKeepsInv(db: Db, c: Client, change: Change, expected: Option<int>)
    requires Inv(db) && NotAhead(db, expected)
    ensures Inv(BeginCall(db, c, change, expected).0)
  {
    hide ApplyChange, Extends;
    if ApplyChange(Latest(db), change).Some? {
      ChangeKeepsRevision(Latest(db), change);
      var db' := BeginCall(db, c, change, expected).0;
      forall d | d in db'.pending ensures PendingOk(db.initial, db.rows, db'.pending[d]) {
        assert d != c ==> PendingOk(db.initial, db.rows, db.pending[d]);
      }
    }
  }

  /** The load of a call that may still insert has not been overtaken. */
  lemma PendingIsCurrent(db: Db, c: Client)
    requires Inv(db) && c in db.pending && db.pending[c].expected == |db.rows|
    ensures var p := db.pending[c];
            p.base == Latest(db) && p.base.revision == |db.rows| && ApplyChange(p.base, p.change) == Some(p.copy)
  {
    hide ApplyChange, Extends;
    assert PendingOk(db.initial, db.rows, db.pending[c]);
  }

  lemma InsertPendingKeepsInv(db: Db, c: Client)
    requires Inv(db) && c in db.pending
    ensures Inv(InsertPending(db, c).0)
  {
    hide ApplyChange, RowsOk;
    var p := db.pending[c];
    var db0 := db.(pending := db.pending - {c});
    assert AllPendingOk(db.initial, db.rows, db0.pending);
    if p.expected == |db.rows| { PendingIsCurrent(db, c); }
    InsertKeepsInv(db0, p.copy, p.expected, Recorded(p.change));
  }

  lemma StepKeepsInv(db: Db, step: Step)
    requires Inv(db) && Disciplined(db, step) && Next(db, step).Some?
    ensures Inv(Next(db, step).value.0)
  {
    hide ApplyChange, BeginCall, InsertPending, InsertSnapshot, AllPendingOk;
    match step {
      case Begin(c, change, expected) => BeginKeepsInv(db, c, change, expected);
      case Insert(c) => InsertPendingKeepsInv(db, c);
      case Save(next, expected) => InsertKeepsInv(db, next, ExpectedRevision(next, expected), Saved);
      case Read => assert Latest(db).revision == |db.rows|;
    }
  }

  /** Callers that name only revisions the store gave them are disciplined. */
  lemma HandedOutIsDisciplined(db: Db, step: Step)
    requires Inv(db) && (step.Begin? && step.expected.Some? ==> step.expected.value in db.handedOut)
    ensures Disciplined(db, step)
  {
    hide RowsOk, AllPendingOk;
  }

  /**
   * A successful insert is the memory store's operation on the state of that very moment: the load before the
   * transaction has not been overtaken.
   */
  lemma InsertRefinesMemoryStore(db: Db, c: Client)
    requires Inv(db) && c in db.pending && InsertPending(db, c).1.Committed?
    ensures var (db', outcome) := InsertPending(db, c);
            Record(Latest(db), db.pending[c].change, Some(db.pending[c].expected)) == (Latest(db'), outcome)
  {
    hide ApplyChange, Inv, WithRevision;
    PendingIsCurrent(db, c);
  }

  /**
   * An insert goes through exactly when the revision it counts on is still the current one and its entry is not
   * logged yet; otherwise no row is added and no entry logged.
   */
  lemma InsertCommitsIff(db: Db, c: Client)
    requires Inv(db) && c in db.pending
    ensures var (db', outcome) := InsertPending(db, c);
            && (outcome.Committed? <==>
                  db.pending[c].expected == Latest(db).revision && !Logged(db, db.pending[c].change))
            && (outcome.Committed? ==>
                  && |db'.rows| == |db.rows| + 1 && db'.rows[|db.rows|].origin == Recorded(db.pending[c].change)
                  && (db.pending[c].change.AddArtifact? || db.pending[c].change.AddDecision? ==>
                        Logged(db', db.pending[c].change)))
            && (!outcome.Committed? ==>
                  db'.rows == db.rows && db'.artifactLog == db.artifactLog && db'.decisionLog == db.decisionLog)
            && (db.pending[c].change.AddArtifact? && db.pending[c].change.artifact.id in db.artifactLog ==>
                  outcome == DuplicateEntry(db.pending[c].change.artifact.id))
            && (db.pending[c].change.AddDecision? && db.pending[c].change.decision.id in db.decisionLog ==>
                  outcome == DuplicateEntry(db.pending[c].change.decision.id))
            && db'.pending == db.pending - {c}
  {
    hide ApplyChange, RowsOk, AllPendingOk;
    assert Latest(db).revision == |db.rows| by { LatestRevision(db); }
  }

  lemma LatestRevision(db: Db)
    requires RowsOk(db.initial, db.rows)
    ensures Latest(db).revision == |db.rows|
  {
    hide Extends;
  }

  /** The revisions a caller is given are the ones handed out. */
  lemma AnswersAreHandedOut(db: Db, step: Step)
    requires Inv(db) && Next(db, step).Some? && !step.Begin? && Next(db, step).value.1.Committed?
    ensures Next(db, step).value.1.revision in Next(db, step).value.0.handedOut
    ensures Next(db, step).value.1.revision == Latest(Next(db, step).value.0).revision
  {
    hide ApplyChange, RowsOk, AllPendingOk;
    LatestRevision(db);
  }

  /** A save is the memory store's, on the state of its moment. */
  lemma SaveRefinesMemoryStore(db: Db, next: Project, expected: Option<int>)
    requires Inv(db)
    ensures var (db', outcome) := Next(db, Save(next, expected)).value;
            (Latest(db'), outcome) == Swap(Latest(db), next, expected)
  {
    hide ApplyChange, Extends;
  }

  // ----- Whole runs -----

  function Exec(db: Db, steps: seq<Step>): Option<Db>
    decreases |steps|
  {
    if steps == [] then Some(db)
    else
      var n := Next(db, steps[0]);
      if n.None? then None else Exec(n.value.0, steps[1..])
  }

  predicate DisciplinedRun(db: Db, steps: seq<Step>)
    decreases |steps|
  {
    steps == [] ||
      (Disciplined(db, steps[0]) &&
       (Next(db, steps[0]).Some? ==> DisciplinedRun(Next(db, steps[0]).value.0, steps[1..])))
  }

  lemma {:induction false} RunKeepsInv(db: Db, steps: seq<Step>)
    requires Inv(db) && DisciplinedRun(db, steps) && Exec(db, steps).Some?
    ensures Inv(Exec(db, steps).value)
    decreases |steps|
  {
    hide Next, Inv, Disciplined;
    if steps != [] {
      StepKeepsInv(db, steps[0]);
      RunKeepsInv(Next(db, steps[0]).value.0, steps[1..]);
    }
  }

  /** However the calls of a fresh project interleave, each recorded snapshot extends its direct predecessor. */
  lemma EveryRecordExtendsItsPredecessor(initial: Project, steps: seq<Step>, k: nat)
    requires initial.revision == 0
    requires DisciplinedRun(Fresh(initial), steps) && Exec(Fresh(initial), steps).Some?
    ensures var db := Exec(Fresh(initial), steps).value;
            k < |db.rows| ==> Extends(At(db.initial, db.rows, k), db.rows[k])
  {
    RunKeepsInv(Fresh(initial), steps);
  }

  predicate IsFailureOf(origin: Origin, t: Id) {
    origin.Recorded? && origin.change.AddFailure? && origin.change.failure.taskId == t
  }

  function FailureCount(rows: seq<Row>, t: Id): nat {
    if rows == [] then 0
    else FailureCount(rows[..|rows| - 1], t) + if IsFailureOf(rows[|rows| - 1].origin, t) then 1 else 0
  }

  /** No increment is lost: between two revisions without a wholesale save, the retry count grows by one per failure. */
  lemma {:induction false} NoIncrementLost(initial: Project, rows: seq<Row>, i: nat, j: nat, t: Id)
    requires RowsOk(initial, rows) && i <= j <= |rows|
    requires forall k | i <= k < j :: rows[k].origin.Recorded?
    ensures RetryCount(At(initial, rows, j), t) == RetryCount(At(initial, rows, i), t) + FailureCount(rows[i..j], t)
    decreases j
  {
    hide RowsOk, At, RetryCount, IsFailureOf;
    if i == j {
      assert rows[i..j] == [];
    } else {
      NoIncrementLost(initial, rows, i, j - 1, t);
      assert rows[i..j][..j - i - 1] == rows[i..j - 1];
      RowKeepsCount(initial, rows, j - 1, t);
    }
  }

  lemma RowKeepsCount(initial: Project, rows: seq<Row>, k: nat, t: Id)
    requires RowsOk(initial, rows) && k < |rows| && rows[k].origin.Recorded?
    ensures RetryCount(At(initial, rows, k + 1), t)
         == RetryCount(At(initial, rows, k), t) + if IsFailureOf(rows[k].origin, t) then 1 else 0
  {
    hide ApplyChange, RetryCount, WithRevision;
    assert Extends(At(initial, rows, k), rows[k]);
    RetryCountAfter(At(initial, rows, k), rows[k].origin.change, k + 1, t);
  }

  /** The same over whole runs of a fresh project. */
  lemma RunLosesNoIncrement(initial: Project, steps: seq<Step>, i: nat, j: nat, t: Id)
    requires initial.revision == 0
    requires DisciplinedRun(Fresh(initial), steps) && Exec(Fresh(initial), steps).Some?
    requires i <= j <= |Exec(Fresh(initial), steps).value.rows|
    requires forall k | i <= k < j :: Exec(Fresh(initial), steps).value.rows[k].origin.Recorded?
    ensures var db := Exec(Fresh(initial), steps).value;
            RetryCount(At(db.initial, db.rows, j), t)
            == RetryCount(At(db.initial, db.rows, i), t) + FailureCount(db.rows[i..j], t)
  {
    hide Next, Exec, Disciplined, RowsOk, AllPendingOk, At;
    FreshInv(initial);
    RunKeepsInv(Fresh(initial), steps);
    var db := Exec(Fresh(initial), steps).value;
    NoIncrementLost(db.initial, db.rows, i, j, t);
  }

  /** So without a wholesale save the retry count of a project that starts without any is the number of failures. */
  lemma RetriesAreFailures(initial: Project, steps: seq<Step>, t: Id)
    requires initial.revision == 0 && initial.retryCounts == map[]
    requires DisciplinedRun(Fresh(initial), steps) && Exec(Fresh(initial), steps).Some?
    requires forall k | 0 <= k < |Exec(Fresh(initial), steps).value.rows| ::
               Exec(Fresh(initial), steps).value.rows[k].origin.Recorded?
    ensures var db := Exec(Fresh(initial), steps).value; RetryCount(Latest(db), t) == FailureCount(db.rows, t)
  {
    hide Next, Exec, Disciplined, RowsOk, AllPendingOk, FailureCount;
    ExecAppends(Fresh(initial), steps);
    var rows := Exec(Fresh(initial), steps).value.rows;
    RunLosesNoIncrement(initial, steps, 0, |rows|, t);
    assert rows[0..|rows|] == rows;
  }

  lemma RecordedRowKeepsEntries(initial: Project, rows: seq<Row>, k: nat, d: Change)
    requires RowsOk(initial, rows) && k < |rows| && rows[k].origin.Recorded?
    requires d == rows[k].origin.change || Holds(At(initial, rows, k), d)
    ensures Holds(At(initial, rows, k + 1), d)
  {
    hide ApplyChange;
    var before, change := At(initial, rows, k), rows[k].origin.change;
    assert Extends(before, rows[k]);
    ChangeKeepsEntries(before, change, d);
    var after := ApplyChange(before, change).value;
    assert Holds(WithRevision(after, before.revision + 1), d) <==> Holds(after, d);
  }

  lemma {:induction false} RecordedRowsKeepEntries(initial: Project, rows: seq<Row>, i: nat, j: nat, d: Change)
    requires RowsOk(initial, rows) && i <= j <= |rows|
    requires forall k | i <= k < j :: rows[k].origin.Recorded?
    requires Holds(At(initial, rows, i), d)
    ensures Holds(At(initial, rows, j), d)
    decreases j
  {
    hide RowsOk, At, Holds;
    if i < j {
      RecordedRowsKeepEntries(initial, rows, i, j - 1, d);
      RecordedRowKeepsEntries(initial, rows, j - 1, d);
    }
  }

  lemma NextAppends(db: Db, step: Step)
    requires Next(db, step).Some?
    ensures Next(db, step).value.0.initial == db.initial && db.rows <= Next(db, step).value.0.rows
  {
    hide ApplyChange;
  }

  lemma {:induction false} ExecAppends(db: Db, steps: seq<Step>)
    requires Exec(db, steps).Some?
    ensures Exec(db, steps).value.initial == db.initial && db.rows <= Exec(db, steps).value.rows
    decreases |steps|
  {
    hide Next;
    if steps != [] {
      NextAppends(db, steps[0]);
      ExecAppends(Next(db, steps[0]).value.0, steps[1..]);
    }
  }

  /**
   * Whatever happens afterwards, the entry of a call that committed is in its own row and in every later one up to
   * the next wholesale save.
   */
  lemma CommittedEntryStays(db: Db, c: Client, steps: seq<Step>, j: nat)
    requires Inv(db) && c in db.pending && InsertPending(db, c).1.Committed?
    requires DisciplinedRun(InsertPending(db, c).0, steps) && Exec(InsertPending(db, c).0, steps).Some?
    requires |db.rows| < j <= |Exec(InsertPending(db, c).0, steps).value.rows|
    requires forall k | |db.rows| < k < j :: Exec(InsertPending(db, c).0, steps).value.rows[k].origin.Recorded?
    ensures Holds(At(db.initial, Exec(InsertPending(db, c).0, steps).value.rows, j), db.pending[c].change)
  {
    hide ApplyChange, Exec, DisciplinedRun, Holds, RowsOk, AllPendingOk, Logged;
    var change := db.pending[c].change;
    var db1 := InsertPending(db, c).0;
    var db2 := Exec(db1, steps).value;
    InsertPendingKeepsInv(db, c);
    RunKeepsInv(db1, steps);
    ExecAppends(db1, steps);
    assert db2.rows[|db.rows|] == db1.rows[|db.rows|];
    assert db1.rows[|db.rows|].origin == Recorded(change);
    RecordedRowKeepsEntries(db.initial, db2.rows, |db.rows|, change);
    RecordedRowsKeepEntries(db.initial, db2.rows, |db.rows| + 1, j, change);
  }

  lemma FreshInv(initial: Project)
    requires initial.revision == 0
    ensures Inv(Fresh(initial))
  {
  }

  lemma RetryCountAfter(p: Project, c: Change, revision: nat, t: Id)
    requires ApplyChange(p, c).Some?
    ensures RetryCount(WithRevision(ApplyChange(p, c).value, revision), t)
         == RetryCount(p, t) + if c.AddFailure? && c.failure.taskId == t then 1 else 0
  {
  }

  // ----- A revision nobody was given yet -----

  /** `k` policy decisions recorded one after the other by client `d`. */
  function Decisions(d: Client, x: PolicyDecision, k: nat): seq<Step> {
    if k == 0 then [] else [Begin(d, AddPolicyDecision(x), None), Insert(d)] + Decisions(d, x, k - 1)
  }

  lemma TwoSteps(db: Db, first: Step, second: Step, rest: seq<Step>)
    requires Next(db, first).Some? && Next(Next(db, first).value.0, second).Some?
    ensures Exec(db, [first, second] + rest) == Exec(Next(Next(db, first).value.0, second).value.0, rest)
  {
    hide Next;
    var steps := [first, second] + rest;
    assert steps[1..][0] == second && steps[1..][1..] == rest;
    assert Exec(db, steps) == Exec(Next(db, first).value.0, steps[1..]);
  }

  /** One decision of `d`, while the calls of other clients stay pending. */
  lemma OneDecision(db: Db, d: Client, x: PolicyDecision)
    requires Latest(db).revision == |db.rows| && d !in db.pending
    ensures var b := Begin(d, AddPolicyDecision(x), None);
            && Next(db, b).Some? && Next(Next(db, b).value.0, Insert(d)).Some?
            && var db' := Next(Next(db, b).value.0, Insert(d)).value.0;
            && db'.initial == db.initial && db'.pending == db.pending && |db'.rows| == |db.rows| + 1
            && Latest(db').revision == |db'.rows|
            && db'.artifactLog == db.artifactLog && db'.decisionLog == db.decisionLog
            && |Latest(db').policyDecisions| == |Latest(db).policyDecisions| + 1
  {
    var b := Begin(d, AddPolicyDecision(x), None);
    var mid := Next(db, b).value.0;
    assert mid.pending - {d} == db.pending;
  }

  lemma {:induction false} ManyDecisions(db: Db, d: Client, x: PolicyDecision, k: nat)
    requires Latest(db).revision == |db.rows| && d !in db.pending
    ensures Exec(db, Decisions(d, x, k)).Some?
    ensures var db' := Exec(db, Decisions(d, x, k)).value;
            && db'.initial == db.initial && db'.pending == db.pending && |db'.rows| == |db.rows| + k
            && db'.artifactLog == db.artifactLog && db'.decisionLog == db.decisionLog
            && |Latest(db').policyDecisions| == |Latest(db).policyDecisions| + k
    decreases k
  {
    hide Next, Latest;
    if k > 0 {
      OneDecision(db, d, x);
      var b := Begin(d, AddPolicyDecision(x), None);
      var db' := Next(Next(db, b).value.0, Insert(d)).value.0;
      TwoSteps(db, b, Insert(d), Decisions(d, x, k - 1));
      ManyDecisions(db', d, x, k - 1);
    }
  }

  /**
   * The discipline is needed: whatever the state and the change, a call that names a revision beyond the current
   * one commits over the decisions others recorded meanwhile, unless its entry is logged already.
   */
  lemma FutureRevisionLosesWrites(db: Db, c: Client, d: Client, change: Change, e: nat, x: PolicyDecision)
    requires Latest(db).revision == |db.rows| && d !in db.pending && c != d
    requires ApplyChange(Latest(db), change).Some? && e > |db.rows|
    ensures var begun := BeginCall(db, c, change, Some(e)).0;
            var overtaken := Exec(begun, Decisions(d, x, e - |db.rows|));
            && overtaken.Some? && c in overtaken.value.pending
            && var (db', outcome) := InsertPending(overtaken.value, c);
               if Logged(db, change) then outcome.DuplicateEntry?
               else outcome.Committed? && !Extends(Latest(overtaken.value), db'.rows[|db'.rows| - 1])
  {
    hide ApplyChange, Exec, Next;
    var begun := BeginCall(db, c, change, Some(e)).0;
    ManyDecisions(begun, d, x, e - |db.rows|);
    var over := Exec(begun, Decisions(d, x, e - |db.rows|)).value;
    DecisionsAfter(Latest(db), change, |over.rows| + 1);
    if ApplyChange(Latest(over), change).Some? { DecisionsAfter(Latest(over), change, |over.rows| + 1); }
  }

  lemma {:induction false} DecisionsAreDisciplined(db: Db, d: Client, x: PolicyDecision, k: nat)
    ensures DisciplinedRun(db, Decisions(d, x, k))
    decreases k
  {
    hide Next;
    if k > 0 {
      var steps := Decisions(d, x, k);
      var rest := steps[1..];
      assert rest[0] == Insert(d) && rest[1..] == Decisions(d, x, k - 1);
      if Next(db, steps[0]).Some? {
        var db1 := Next(db, steps[0]).value.0;
        if Next(db1, rest[0]).Some? {
          DecisionsAreDisciplined(Next(db1, rest[0]).value.0, d, x, k - 1);
        }
      }
    }
  }

  lemma {:induction false} Above(clients: set<Client>) returns (bound: Client)
    ensures forall c | c in clients :: c < bound
    decreases |clients|
  {
    if clients == {} {
      bound := 0;
    } else {
      var c :| c in clients;
      var b := Above(clients - {c});
      bound := if c < b then b else c + 1;
      forall y | y in clients ensures y < bound {
        assert y == c || y in clients - {c};
      }
    }
  }

  /** A recorded row of `c`, whenever its insert comes, is the state before it plus exactly the recorded change. */
  predicate InsertsFaithfully(db: Db, c: Client)
    requires c in db.pending
  {
    var (db', outcome) := InsertPending(db, c);
    outcome.Committed? ==> Extends(Latest(db), db'.rows[|db'.rows| - 1])
  }

  ghost predicate AlwaysInsertsFaithfully(db: Db, c: Client) {
    forall steps | DisciplinedRun(db, steps) && Exec(db, steps).Some? && c in Exec(db, steps).value.pending ::
      InsertsFaithfully(Exec(db, steps).value, c)
  }

  lemma InvInsertsFaithfully(db: Db, c: Client)
    requires Inv(db) && c in db.pending
    ensures InsertsFaithfully(db, c)
  {
    hide Extends, AllPendingOk, ApplyChange;
    InsertPendingKeepsInv(db, c);
    var (db', outcome) := InsertPending(db, c);
    if outcome.Committed? {
      assert RowsOk(db'.initial, db'.rows);
      assert Extends(At(db'.initial, db'.rows, |db.rows|), db'.rows[|db.rows|]);
    }
  }

  /**
   * The discipline is exact: a call records faithfully, whatever disciplined calls come in between, if and only if it
   * names no revision beyond the current one.
   */
  lemma FaithfulIffNotAhead(db: Db, c: Client, change: Change, expected: Option<int>)
    requires Inv(db) && ApplyChange(Latest(db), change).Some? && !Logged(db, change)
    ensures AlwaysInsertsFaithfully(BeginCall(db, c, change, expected).0, c) <==> NotAhead(db, expected)
  {
    hide Inv, BeginCall, ApplyChange, DisciplinedRun, Exec, Next, InsertsFaithfully;
    var begun := BeginCall(db, c, change, expected).0;
    if NotAhead(db, expected) {
      BeginKeepsInv(db, c, change, expected);
      forall steps | DisciplinedRun(begun, steps) && Exec(begun, steps).Some? && c in Exec(begun, steps).value.pending
        ensures InsertsFaithfully(Exec(begun, steps).value, c)
      {
        RunKeepsInv(begun, steps);
        InvInsertsFaithfully(Exec(begun, steps).value, c);
      }
    } else {
      AheadIsUnfaithful(db, c, change, expected.value);
    }
  }

  lemma AheadIsUnfaithful(db: Db, c: Client, change: Change, e: nat)
    requires Inv(db) && ApplyChange(Latest(db), change).Some? && !Logged(db, change) && e > |db.rows|
    ensures !AlwaysInsertsFaithfully(BeginCall(db, c, change, Some(e)).0, c)
  {
    hide BeginCall, ApplyChange, DisciplinedRun, Exec, Next, AllPendingOk, Extends, Logged;
    var begun := BeginCall(db, c, change, Some(e)).0;
    var d := Above(db.pending.Keys + {c});
    var x := PolicyDecision("", "", "", 0, "", "", "", true);
    FutureRevisionLosesWrites(db, c, d, change, e, x);
    DecisionsAreDisciplined(begun, d, x, e - |db.rows|);
    assert !InsertsFaithfully(Exec(begun, Decisions(d, x, e - |db.rows|)).value, c);
  }

  lemma DecisionsAfter(p: Project, c: Change, revision: nat)
    requires ApplyChange(p, c).Some?
    ensures |ApplyChange(p, c).value.policyDecisions| == |p.policyDecisions| + if c.AddPolicyDecision? then 1 else 0
    ensures WithRevision(ApplyChange(p, c).value, revision).policyDecisions == ApplyChange(p, c).value.policyDecisions
  {
  }
}
