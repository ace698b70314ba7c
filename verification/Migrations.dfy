/** The schema migration runner: each migration is one transaction that runs its statements and records itself. */
module Migrations {
  import opened Options

  datatype Migration = Migration(id: int, name: string, checksum: string, statements: seq<string>)
  datatype Applied = Applied(id: int, name: string, checksum: string)

  datatype Problem =
    | NotPositive(id: int) | NotAscending(id: int) | DuplicateId(id: int) | DuplicateName(name: string)
    | NoStatements(id: int)
    | VersionMismatch(latest: int)
    | DuplicateHistory(id: int) | UnknownMigration(id: int) | ChecksumMismatch(id: int)
    | NotContiguous(missing: seq<int>)
    | NotMigrated(version: int)
    | MigrationFailed(id: int)

  function Record(m: Migration): Applied {
    Applied(m.id, m.name, m.checksum)
  }

  function Records(ms: seq<Migration>): (r: seq<Applied>)
    ensures |r| == |ms|
  {
    seq(|ms|, i requires 0 <= i < |ms| => Record(ms[i]))
  }

  function Statements(ms: seq<Migration>): seq<string> {
    if ms == [] then [] else Statements(ms[..|ms| - 1]) + ms[|ms| - 1].statements
  }

  predicate Ascending(ms: seq<Migration>) {
    forall i, j | 0 <= i < j < |ms| :: ms[i].id < ms[j].id
  }

  /** What the constructor of a runner accepts, but for the required version. */
  predicate ValidList(ms: seq<Migration>) {
    && Ascending(ms)
    && (forall i | 0 <= i < |ms| :: ms[i].id > 0 && ms[i].statements != [])
    && (forall i, j | 0 <= i < j < |ms| :: ms[i].name != ms[j].name)
  }

  function LatestId(ms: seq<Migration>): int {
    if ms == [] then 0 else ms[|ms| - 1].id
  }

  /**
   * The first migration that spoils the list is the one named, for what is wrong with it; equal ids are not ascending.
   */
  ghost predicate Spoils(ms: seq<Migration>, requiredVersion: int, p: Problem) {
    match p
    case NotPositive(id) => id <= 0 && exists k :: SpoiltAt(ms, k) && ms[k].id == id
    case NotAscending(id) => id > 0 && exists k :: SpoiltAt(ms, k) && ms[k].id == id <= LatestId(ms[..k])
    case DuplicateName(name) =>
      exists k, i :: SpoiltAt(ms, k) && ms[k].name == name && LatestId(ms[..k]) < ms[k].id
        && 0 <= i < k && ms[i].name == name
    case NoStatements(id) =>
      exists k :: SpoiltAt(ms, k) && ms[k].id == id && LatestId(ms[..k]) < id && ms[k].statements == []
    case VersionMismatch(latest) => ValidList(ms) && latest == LatestId(ms) && latest != requiredVersion
    case _ => false
  }

  predicate SpoiltAt(ms: seq<Migration>, k: int) {
    0 <= k < |ms| && ValidList(ms[..k]) && !ValidList(ms[..k + 1])
  }

  method ValidatePostgresMigrations(ms: seq<Migration>, requiredVersion: int) returns (problem: Option<Problem>)
    ensures problem == None <==> ValidList(ms) && LatestId(ms) == requiredVersion
    ensures problem.Some? ==> Spoils(ms, requiredVersion, problem.value)
  {
    var ids: set<int>, names: set<string>, previousId := {}, {}, 0;
    for k := 0 to |ms|
      invariant ids == set i | 0 <= i < k :: ms[i].id
      invariant names == set i | 0 <= i < k :: ms[i].name
      invariant previousId == LatestId(ms[..k])
      invariant ValidList(ms[..k])
    {
      var m := ms[k];
      assert ms[..k + 1][k] == m;
      if m.id <= 0 {
        assert SpoiltAt(ms, k);
        return Some(NotPositive(m.id));
      }
      if m.id <= previousId {
        assert k > 0 && ms[k - 1].id == previousId;
        assert SpoiltAt(ms, k);
        return Some(NotAscending(m.id));
      }
      if m.id in ids {
        return Some(DuplicateId(m.id));
      }
      if m.name in names {
        assert SpoiltAt(ms, k);
        return Some(DuplicateName(m.name));
      }
      if m.statements == [] {
        assert SpoiltAt(ms, k);
        return Some(NoStatements(m.id));
      }
      ids, names, previousId := ids + {m.id}, names + {m.name}, m.id;
    }
    assert ms[..|ms|] == ms;
    problem := if previousId != requiredVersion then Some(VersionMismatch(previousId)) else None;
  }

  /** How `readAppliedMigrations` returns the history. */
  predicate OrderedById(history: seq<Applied>) {
    forall i, j | 0 <= i < j < |history| :: history[i].id <= history[j].id
  }

  function LatestVersion(history: seq<Applied>): int {
    if history == [] then 0 else history[|history| - 1].id
  }

  predicate IsPrefix(history: seq<Applied>, ms: seq<Migration>) {
    |history| <= |ms| && history == Records(ms[..|history|])
  }

  predicate Knows(ms: seq<Migration>, a: Applied) {
    exists i :: 0 <= i < |ms| && Record(ms[i]) == a
  }

  predicate Has(history: seq<Applied>, id: int) {
    exists j :: 0 <= j < |history| && history[j].id == id
  }

  predicate NoDuplicates(history: seq<Applied>) {
    forall i, j | 0 <= i < j < |history| :: history[i].id != history[j].id
  }

  /** Nothing unknown or altered. */
  predicate AllKnown(history: seq<Applied>, ms: seq<Migration>) {
    forall i | 0 <= i < |history| :: Knows(ms, history[i])
  }

  /** Nothing is missing below `version`. */
  predicate NothingMissing(history: seq<Applied>, ms: seq<Migration>, version: int) {
    forall i | 0 <= i < |ms| && ms[i].id < version :: Has(history, ms[i].id)
  }

  predicate Compatible(history: seq<Applied>, ms: seq<Migration>) {
    NoDuplicates(history) && AllKnown(history, ms) && NothingMissing(history, ms, LatestVersion(history))
  }

  predicate StrictlyOrdered(history: seq<Applied>) {
    forall i, j | 0 <= i < j < |history| :: history[i].id < history[j].id
  }

  /** The list has an earlier entry at the same place, up to `i`. */
  predicate MatchesUpTo(history: seq<Applied>, ms: seq<Migration>, i: nat)
    requires i <= |history|
  {
    i <= |ms| && forall k | 0 <= k < i :: history[k] == Record(ms[k])
  }

  /** An entry further down the list than its place in the history means that something below it is missing. */
  lemma MatchesNext(history: seq<Applied>, ms: seq<Migration>, i: nat, j: nat)
    requires Ascending(ms) && StrictlyOrdered(history) && i < |history| && MatchesUpTo(history, ms, i)
    requires j < |ms| && Record(ms[j]) == history[i]
    ensures i <= j
    ensures i < j ==> ms[i].id < LatestVersion(history) && !Has(history, ms[i].id)
  {
    if i > 0 { assert history[i - 1] == Record(ms[i - 1]); }
    if i < j {
      forall p | 0 <= p < |history| ensures history[p].id != ms[i].id {
        assert p < i ==> history[p] == Record(ms[p]);
      }
    }
  }

  lemma {:induction false} CompatibleMatches(history: seq<Applied>, ms: seq<Migration>, i: nat)
    requires Ascending(ms) && StrictlyOrdered(history) && AllKnown(history, ms)
    requires NothingMissing(history, ms, LatestVersion(history)) && i <= |history|
    ensures MatchesUpTo(history, ms, i)
    decreases i
  {
    hide StrictlyOrdered, Ascending, Has, LatestVersion, MatchesUpTo, NothingMissing, AllKnown;
    if i > 0 {
      CompatibleMatches(history, ms, i - 1);
      var j := PlaceOf(history, ms, i - 1);
      MatchesNext(history, ms, i - 1, j);
      NotMissing(history, ms, i - 1);
      MatchesExtend(history, ms, i - 1);
    } else {
      MatchesNone(history, ms);
    }
  }

  lemma PlaceOf(history: seq<Applied>, ms: seq<Migration>, i: nat) returns (j: nat)
    requires AllKnown(history, ms) && i < |history|
    ensures j < |ms| && Record(ms[j]) == history[i]
  {
    assert Knows(ms, history[i]);
    var k :| 0 <= k < |ms| && Record(ms[k]) == history[i];
    j := k;
  }

  lemma NotMissing(history: seq<Applied>, ms: seq<Migration>, i: nat)
    requires NothingMissing(history, ms, LatestVersion(history))
    ensures i < |ms| && ms[i].id < LatestVersion(history) ==> Has(history, ms[i].id)
  {
    hide Has, LatestVersion;
  }

  lemma MatchesExtend(history: seq<Applied>, ms: seq<Migration>, i: nat)
    requires i < |history| && i < |ms| && MatchesUpTo(history, ms, i) && Record(ms[i]) == history[i]
    ensures MatchesUpTo(history, ms, i + 1)
  {
  }

  lemma MatchesNone(history: seq<Applied>, ms: seq<Migration>)
    ensures MatchesUpTo(history, ms, 0)
  {
  }

  lemma PrefixIffMatches(history: seq<Applied>, ms: seq<Migration>)
    ensures IsPrefix(history, ms) <==> MatchesUpTo(history, ms, |history|)
  {
    if |history| <= |ms| {
      var r := Records(ms[..|history|]);
      if history == r {
        forall k | 0 <= k < |history| ensures history[k] == Record(ms[k]) {
          assert r[k] == Record(ms[k]);
        }
      } else {
        var k :| 0 <= k < |history| && history[k] != r[k];
        assert history[k] != Record(ms[k]);
      }
    }
  }

  lemma MatchingIsCompatible(history: seq<Applied>, ms: seq<Migration>)
    requires ValidList(ms) && MatchesUpTo(history, ms, |history|)
    ensures Compatible(history, ms)
  {
    forall i | 0 <= i < |history| ensures Knows(ms, history[i]) {
      assert Record(ms[i]) == history[i];
    }
    forall i | 0 <= i < |ms| && ms[i].id < LatestVersion(history) ensures Has(history, ms[i].id) {
      assert history[i].id == ms[i].id;
    }
  }

  /** The check accepts an id-ordered history exactly when it is a prefix of the known list. */
  lemma CompatibleIffPrefix(history: seq<Applied>, ms: seq<Migration>)
    requires ValidList(ms) && OrderedById(history)
    ensures Compatible(history, ms) <==> IsPrefix(history, ms)
  {
    hide AllKnown, NothingMissing, MatchesUpTo, IsPrefix, LatestVersion;
    PrefixIffMatches(history, ms);
    if IsPrefix(history, ms) {
      MatchingIsCompatible(history, ms);
    } else if Compatible(history, ms) {
      CompatibleMatches(history, ms, |history|);
    }
  }

  lemma PrefixIsOrdered(history: seq<Applied>, ms: seq<Migration>)
    requires Ascending(ms) && IsPrefix(history, ms)
    ensures OrderedById(history)
  {
    forall i | 0 <= i < |history| ensures history[i] == Record(ms[i]) {
    }
  }

  // ----- The runner -----

  /** The history table, and the statements of all committed transactions. */
  datatype DbState = DbState(history: seq<Applied>, executed: seq<string>)

  function Commit(s: DbState, m: Migration): DbState {
    DbState(s.history + [Record(m)], s.executed + m.statements)
  }

  function CommitAll(s: DbState, ms: seq<Migration>): DbState {
    if ms == [] then s else Commit(CommitAll(s, ms[..|ms| - 1]), ms[|ms| - 1])
  }

  /** A run that gets `commits` transactions through before it ends, fails or crashes. */
  function RunOnce(ms: seq<Migration>, s: DbState, commits: nat): DbState
  {
    var n := |s.history|;
    if !IsPrefix(s.history, ms) then s
    else CommitAll(s, ms[n..if n + commits <= |ms| then n + commits else |ms|])
  }

  class Database {
    var history: seq<Applied>
    var executed: seq<string>

    function State(): DbState
      reads this
    {
      DbState(history, executed)
    }

    constructor ()
      ensures State() == DbState([], [])
    {
      history, executed := [], [];
    }
  }

  class PostgresMigrationRunner {
    const migrations: seq<Migration>

    constructor (migrations: seq<Migration>)
      ensures this.migrations == migrations
    {
      this.migrations := migrations;
    }

    /** The problem named is one the history has. */
    ghost predicate Explains(history: seq<Applied>, p: Problem) {
      match p
      case DuplicateHistory(id) => exists i, j :: 0 <= i < j < |history| && history[i].id == history[j].id == id
      case UnknownMigration(id) => Has(history, id) && forall k | 0 <= k < |migrations| :: migrations[k].id != id
      case ChecksumMismatch(id) =>
        exists i, k :: 0 <= i < |history| && 0 <= k < |migrations| && history[i].id == migrations[k].id == id
          && history[i] != Record(migrations[k])
      case NotContiguous(missing) =>
        missing != [] && forall x :: x in missing <==> IsMissing(history, x, LatestVersion(history))
      case _ => false
    }

    ghost predicate IsMissing(history: seq<Applied>, id: int, version: int) {
      id < version && !Has(history, id) && exists k :: 0 <= k < |migrations| && migrations[k].id == id
    }

    method AssertAppliedMigrationsAreCompatible(history: seq<Applied>) returns (problem: Option<Problem>)
      requires ValidList(migrations) && OrderedById(history)
      ensures problem == None <==> IsPrefix(history, migrations)
      ensures problem.Some? ==> Explains(history, problem.value)
    {
      hide IsPrefix, ValidList, OrderedById, NoDuplicates, AllKnown, NothingMissing;
      CompatibleIffPrefix(history, migrations);
      problem := CheckEntries(history);
      if problem.Some? {
        return;
      }
      var missing := MissingBefore(history, LatestVersion(history));
      problem := if missing != [] then Some(NotContiguous(missing)) else None;
    }

    method CheckEntries(history: seq<Applied>) returns (problem: Option<Problem>)
      requires ValidList(migrations)
      ensures problem == None <==> NoDuplicates(history) && AllKnown(history, migrations)
      ensures problem.Some? ==> Explains(history, problem.value)
    {
      hide ValidList;
      var appliedIds: set<int> := {};
      for k := 0 to |history|
        invariant appliedIds == set i | 0 <= i < k :: history[i].id
        invariant forall i, j | 0 <= i < j < k :: history[i].id != history[j].id
        invariant forall i | 0 <= i < k :: Knows(migrations, history[i])
      {
        var applied := history[k];
        if applied.id in appliedIds {
          return Some(DuplicateHistory(applied.id));
        }
        appliedIds := appliedIds + {applied.id};
        var known := Find(applied.id);
        if known.None? {
          return Some(UnknownMigration(applied.id));
        }
        if known.value.name != applied.name || known.value.checksum != applied.checksum {
          return Some(ChecksumMismatch(applied.id));
        }
      }
      problem := None;
    }

    method MissingBefore(history: seq<Applied>, version: int) returns (missing: seq<int>)
      ensures missing == [] <==> NothingMissing(history, migrations, version)
      ensures forall x :: x in missing <==> IsMissing(history, x, version)
    {
      missing := [];
      for k := 0 to |migrations|
        invariant missing == [] <==>
                    forall i | 0 <= i < k && migrations[i].id < version :: Has(history, migrations[i].id)
        invariant forall x :: x in missing <==>
                    x < version && !Has(history, x) && exists i :: 0 <= i < k && migrations[i].id == x
      {
        if migrations[k].id < version && !Has(history, migrations[k].id) {
          missing := missing + [migrations[k].id];
        }
      }
    }

    method Find(id: int) returns (m: Option<Migration>)
      requires ValidList(migrations)
      ensures m.Some? ==> m.value in migrations && m.value.id == id
      ensures m.Some? ==> forall i | 0 <= i < |migrations| && migrations[i].id == id :: migrations[i] == m.value
      ensures m.None? ==> forall i | 0 <= i < |migrations| :: migrations[i].id != id
    {
      for k := 0 to |migrations|
        invariant forall i | 0 <= i < k :: migrations[i].id != id
      {
        if migrations[k].id == id {
          return Some(migrations[k]);
        }
      }
      m := None;
    }

    /** One transaction: its statements and its record, or nothing. */
    method ApplyMigration(db: Database, m: Migration, commits: bool) returns (ok: bool)
      modifies db
      ensures ok == commits
      ensures db.State() == if commits then Commit(old(db.State()), m) else old(db.State())
    {
      if !commits {
        return false;
      }
      var executed := db.executed;
      for k := 0 to |m.statements|
        invariant executed == old(db.executed) + m.statements[..k]
        invariant db.State() == old(db.State())
      {
        executed := executed + [m.statements[k]];
      }
      assert m.statements[..|m.statements|] == m.statements;
      db.executed := executed;
      db.history := db.history + [Record(m)];
      ok := true;
    }

    /** Under the migration lock; `budget` transactions commit before the run fails or crashes. */
    method ApplyPendingMigrations(db: Database, budget: nat) returns (problem: Option<Problem>)
      requires ValidList(migrations) && OrderedById(db.history)
      modifies db
      ensures db.State() == RunOnce(migrations, old(db.State()), budget)
      ensures problem == None ==> db.history == Records(migrations)
      ensures IsPrefix(old(db.history), migrations) && |migrations| - |old(db.history)| <= budget ==> problem == None
      ensures OrderedById(db.history)
    {
      hide IsPrefix, OrderedById, Has, CommitAll;
      RunOnceIsOrdered(migrations, db.State(), budget);
      var before := db.history;
      problem := AssertAppliedMigrationsAreCompatible(before);
      if problem.Some? {
        return;
      }
      ghost var start := |before|;
      PrefixFacts(before, migrations, old(db.State()));
      var committed := 0;
      for k := 0 to |migrations|
        invariant committed == (if k <= start then 0 else k - start) && committed <= budget
        invariant db.State() == CommitAll(old(db.State()), migrations[start..start + committed])
      {
        AppliedIff(before, migrations, k);
        if Has(before, migrations[k].id) {
          continue;
        }
        var applied := ApplyMigration(db, migrations[k], committed < budget);
        if !applied {
          return Some(MigrationFailed(migrations[k].id));
        }
        committed := committed + 1;
        CommitNext(old(db.State()), migrations, start, k);
      }
      assert migrations[start..|migrations|] == migrations[start..];
      problem := AssertAppliedMigrationsAreCompatible(db.history);
      FullIsPrefix(migrations);
    }

    /** Accepts exactly a fully migrated schema. */
    method VerifySchemaCompatibility(db: Database) returns (problem: Option<Problem>)
      requires ValidList(migrations) && OrderedById(db.history)
      ensures problem == None <==> db.history == Records(migrations)
    {
      problem := AssertAppliedMigrationsAreCompatible(db.history);
      if problem.Some? {
        assert migrations[..|migrations|] == migrations;
        return;
      }
      var version := LatestVersion(db.history);
      if version != LatestId(migrations) {
        return Some(NotMigrated(version));
      }
      VersionTellsLength(db.history, migrations);
      assert migrations[..|migrations|] == migrations;
    }
  }

  lemma PrefixFacts(history: seq<Applied>, ms: seq<Migration>, s: DbState)
    requires Ascending(ms) && IsPrefix(history, ms) && s.history == history
    ensures |history| <= |ms| && CommitAll(s, ms[|history|..|history|]) == s
    ensures CommitAll(s, ms[|history|..]).history == Records(ms) && OrderedById(Records(ms))
  {
    var n := |history|;
    CommitAllHistory(s, ms[n..]);
    assert Records(ms[..n]) + Records(ms[n..]) == Records(ms);
  }

  /** A run leaves a history that the next run can read in order. */
  lemma RunOnceIsOrdered(ms: seq<Migration>, s: DbState, commits: nat)
    requires Ascending(ms) && OrderedById(s.history)
    ensures OrderedById(RunOnce(ms, s, commits).history)
  {
    hide Ascending, OrderedById, CommitAll, Records;
    var n := |s.history|;
    if IsPrefix(s.history, ms) {
      var stop := if n + commits <= |ms| then n + commits else |ms|;
      CommitAllHistory(s, ms[n..stop]);
      RecordsOfBoth(ms, n, stop);
      assert RunOnce(ms, s, commits).history == Records(ms[..stop]);
      PrefixIsOrdered(RunOnce(ms, s, commits).history, ms);
    }
  }

  lemma FullIsPrefix(ms: seq<Migration>)
    ensures IsPrefix(Records(ms), ms)
  {
    assert ms[..|ms|] == ms;
  }

  lemma CommitNext(s: DbState, ms: seq<Migration>, start: nat, k: nat)
    requires start <= k < |ms|
    ensures CommitAll(s, ms[start..k + 1]) == Commit(CommitAll(s, ms[start..k]), ms[k])
  {
    assert ms[start..k + 1][..k - start] == ms[start..k];
  }

  lemma AppliedIff(history: seq<Applied>, ms: seq<Migration>, k: nat)
    requires Ascending(ms) && IsPrefix(history, ms) && k < |ms|
    ensures Has(history, ms[k].id) <==> k < |history|
  {
    forall i | 0 <= i < |history| ensures history[i] == Record(ms[i]) {
    }
    if k < |history| { assert history[k].id == ms[k].id; }
  }

  lemma VersionTellsLength(history: seq<Applied>, ms: seq<Migration>)
    requires ValidList(ms) && IsPrefix(history, ms)
    ensures LatestVersion(history) == LatestId(ms) ==> |history| == |ms|
  {
    if history != [] { assert history[|history| - 1] == Record(ms[|history| - 1]); }
  }

  lemma {:induction false} CommitAllHistory(s: DbState, ms: seq<Migration>)
    ensures CommitAll(s, ms) == DbState(s.history + Records(ms), s.executed + Statements(ms))
  {
    if ms == [] {
      assert s.history + Records(ms) == s.history && s.executed + Statements(ms) == s.executed;
    } else {
      var init, last := ms[..|ms| - 1], ms[|ms| - 1];
      CommitAllHistory(s, init);
      assert Records(ms) == Records(init) + [Record(last)];
      assert s.executed + Statements(init) + last.statements == s.executed + Statements(ms);
    }
  }

  lemma {:induction false} StatementsOfBoth(a: seq<Migration>, b: seq<Migration>)
    ensures Statements(a + b) == Statements(a) + Statements(b)
    decreases |b|
  {
    if b == [] {
      assert a + b == a;
    } else {
      assert (a + b)[..|a + b| - 1] == a + b[..|b| - 1];
      StatementsOfBoth(a, b[..|b| - 1]);
    }
  }

  // ----- Any sequence of runs and crashes -----

  /** A run of some release, which knows the first `known` migrations, and how many transactions it got through. */
  datatype Run = Run(known: nat, commits: nat)

  function AfterRuns(master: seq<Migration>, runs: seq<Run>): DbState
    requires forall r | r in runs :: r.known <= |master|
  {
    if runs == [] then DbState([], [])
    else
      var r := runs[|runs| - 1];
      RunOnce(master[..r.known], AfterRuns(master, runs[..|runs| - 1]), r.commits)
  }

  /** The history is a prefix of the list, and exactly the statements of that prefix were executed, each once. */
  predicate Migrated(master: seq<Migration>, s: DbState) {
    IsPrefix(s.history, master) && s.executed == Statements(master[..|s.history|])
  }

  lemma ExtendMigrated(master: seq<Migration>, s: DbState, stop: nat)
    requires Migrated(master, s) && |s.history| <= stop <= |master|
    ensures Migrated(master, CommitAll(s, master[|s.history|..stop]))
    ensures CommitAll(s, master[|s.history|..stop]).history == Records(master[..stop])
  {
    hide CommitAll, Statements, Record, Records;
    var n := |s.history|;
    CommitAllHistory(s, master[n..stop]);
    RecordsOfBoth(master, n, stop);
    StatementsOfBoth(master[..n], master[n..stop]);
    assert master[..n] + master[n..stop] == master[..stop];
    var s' := CommitAll(s, master[n..stop]);
    assert |s'.history| == stop;
  }

  lemma RecordsOfBoth(ms: seq<Migration>, n: nat, stop: nat)
    requires n <= stop <= |ms|
    ensures Records(ms[..n]) + Records(ms[n..stop]) == Records(ms[..stop])
  {
  }

  /** A run keeps it so; one with the time to finish, of a release no older than the history, ends at its full list. */
  lemma RunKeepsMigrated(master: seq<Migration>, s: DbState, r: Run)
    requires Migrated(master, s) && r.known <= |master|
    ensures Migrated(master, RunOnce(master[..r.known], s, r.commits))
    ensures |s.history| <= |RunOnce(master[..r.known], s, r.commits).history|
    ensures |s.history| <= r.known && r.known - |s.history| <= r.commits ==>
              RunOnce(master[..r.known], s, r.commits).history == Records(master[..r.known])
  {
    hide CommitAll, Statements;
    var n := |s.history|;
    if n <= r.known {
      assert master[..r.known][..n] == master[..n];
      var stop := if n + r.commits <= r.known then n + r.commits else r.known;
      assert master[..r.known][n..stop] == master[n..stop];
      ExtendMigrated(master, s, stop);
    }
  }

  /** However often releases of the same list run, fail and crash. */
  lemma {:induction false} RunsKeepPrefix(master: seq<Migration>, runs: seq<Run>)
    requires forall r | r in runs :: r.known <= |master|
    ensures Migrated(master, AfterRuns(master, runs))
    decreases |runs|
  {
    hide RunOnce, Migrated;
    if runs == [] {
      NothingMigrated(master);
    } else {
      RunsKeepPrefix(master, runs[..|runs| - 1]);
      RunKeepsMigrated(master, AfterRuns(master, runs[..|runs| - 1]), runs[|runs| - 1]);
    }
  }

  lemma NothingMigrated(master: seq<Migration>)
    ensures Migrated(master, DbState([], []))
  {
    assert Records(master[..0]) == [];
  }
}
