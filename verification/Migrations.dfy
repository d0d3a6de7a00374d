/** The schema migration runner (crates/persistence/src/database.rs, `apply_migrations`). */
module Migrations {
  import opened Wrappers

  /** `Schema` stands for everything a migration's SQL can read and change. */
  datatype Migration = Migration(version: nat, sql: string)

  datatype Database<Schema> = Database(schema: Schema, version: nat)

  datatype MigrationError =
    | InvalidMigrationOrder
    | DatabaseOpen
    | DatabaseVersionTooNew(actual: nat, supported: nat)
    | MigrationFailed(version: nat)

  /** Running a batch of SQL: the new schema, or a failure. */
  type Executor<!Schema> = (Schema, string) -> Option<Schema>

  ghost predicate VersionsIncrease(migrations: seq<Migration>) {
    forall i, j :: 0 <= i < j < |migrations| ==> migrations[i].version < migrations[j].version
  }

  function LastVersion(migrations: seq<Migration>): nat {
    if migrations == [] then 0 else migrations[|migrations| - 1].version
  }

  /** The migrations above a version, in order. */
  function Pending(migrations: seq<Migration>, version: nat): seq<Migration> {
    if migrations == [] then []
    else (if migrations[0].version > version then [migrations[0]] else []) + Pending(migrations[1..], version)
  }

  /** All of them inside one transaction. */
  function Executed<Schema>(exec: Executor<Schema>, db: Database<Schema>, pending: seq<Migration>)
    : (r: Result<Database<Schema>, MigrationError>)
    ensures r.Err? ==>
              r.error.MigrationFailed? && exists i :: 0 <= i < |pending| && pending[i].version == r.error.version
    decreases |pending|
  {
    if pending == [] then Ok(db)
    else
      match exec(db.schema, pending[0].sql)
      case None => Err(MigrationFailed(pending[0].version))
      case Some(schema) => Executed(exec, Database(schema, pending[0].version), pending[1..])
  }

  ghost function Outcome<Schema>(exec: Executor<Schema>, db: Database<Schema>,
      migrations: seq<Migration>): Result<Database<Schema>, MigrationError> {
    if !VersionsIncrease(migrations) then Err(InvalidMigrationOrder)
    else if migrations != [] && db.version > LastVersion(migrations)
      then Err(DatabaseVersionTooNew(db.version, LastVersion(migrations)))
    else Executed(exec, db, Pending(migrations, db.version))
  }

  lemma {:induction false} PendingFrom(migrations: seq<Migration>, version: nat, k: nat)
    requires k <= |migrations|
    requires forall i :: 0 <= i < k ==> migrations[i].version <= version
    requires forall i :: k <= i < |migrations| ==> migrations[i].version > version
    ensures Pending(migrations, version) == migrations[k..]
  {
    if migrations != [] {
      PendingFrom(migrations[1..], version, if k > 0 then k - 1 else 0);
      if k == 0 {
        assert migrations == [migrations[0]] + migrations[1..];
      }
    }
  }

  function FirstAbove(migrations: seq<Migration>, version: nat): (k: nat)
    ensures k <= |migrations|
    ensures forall i :: 0 <= i < k ==> migrations[i].version <= version
    ensures k < |migrations| ==> migrations[k].version > version
  {
    if migrations == [] || migrations[0].version > version then 0 else 1 + FirstAbove(migrations[1..], version)
  }

  /** What is pending is a suffix of an increasing list. */
  lemma PendingShape(migrations: seq<Migration>, version: nat)
    requires VersionsIncrease(migrations)
    ensures Pending(migrations, version) == migrations[FirstAbove(migrations, version)..]
  {
    PendingFrom(migrations, version, FirstAbove(migrations, version));
  }

  lemma {:induction false} ExecutedConcat<Schema>(exec: Executor<Schema>, db: Database<Schema>, a: seq<Migration>,
      b: seq<Migration>)
    ensures Executed(exec, db, a + b) ==
              match Executed(exec, db, a)
              case Err(e) => Err(e)
              case Ok(db') => Executed(exec, db', b)
    decreases |a|
  {
    if a == [] {
      assert a + b == b;
    } else {
      assert (a + b)[1..] == a[1..] + b;
      match exec(db.schema, a[0].sql)
      case None =>
      case Some(schema) => ExecutedConcat(exec, Database(schema, a[0].version), a[1..], b);
    }
  }

  lemma {:induction false} ExecutedVersion<Schema>(exec: Executor<Schema>, db: Database<Schema>,
      pending: seq<Migration>)
    requires Executed(exec, db, pending).Ok?
    ensures Executed(exec, db, pending).value.version == if pending == [] then db.version else LastVersion(pending)
    decreases |pending|
  {
    if pending != [] {
      var schema := exec(db.schema, pending[0].sql).value;
      ExecutedVersion(exec, Database(schema, pending[0].version), pending[1..]);
    }
  }

  /** The database a run leaves behind: a failure changes nothing. */
  ghost function After<Schema>(exec: Executor<Schema>, db: Database<Schema>,
      migrations: seq<Migration>): Database<Schema> {
    match Outcome(exec, db, migrations)
    case Ok(db') => db'
    case Err(_) => db
  }

  /** A database that has been migrated is at the last version, and migrating it again does nothing. */
  lemma RepeatDoesNothing<Schema>(exec: Executor<Schema>, db: Database<Schema>, migrations: seq<Migration>)
    requires Outcome(exec, db, migrations).Ok?
    ensures migrations != [] ==> After(exec, db, migrations).version == LastVersion(migrations)
    ensures Outcome(exec, After(exec, db, migrations), migrations) == Ok(After(exec, db, migrations))
  {
    PendingShape(migrations, db.version);
    ExecutedVersion(exec, db, Pending(migrations, db.version));
    var done := After(exec, db, migrations);
    PendingFrom(migrations, done.version, |migrations|);
  }

  lemma LongerList(earlier: seq<Migration>, rest: seq<Migration>)
    requires VersionsIncrease(earlier + rest)
    ensures VersionsIncrease(earlier)
    ensures forall i :: 0 <= i < |earlier| ==> (earlier + rest)[i] == earlier[i]
    ensures earlier != [] ==> forall i :: |earlier| <= i < |earlier + rest| ==>
              LastVersion(earlier) < (earlier + rest)[i].version
    ensures earlier != [] && rest != [] ==> LastVersion(earlier) < LastVersion(earlier + rest)
  {
    var later := earlier + rest;
    assert earlier != [] ==> later[|earlier| - 1] == earlier[|earlier| - 1];
    forall i, j | 0 <= i < j < |earlier| ensures earlier[i].version < earlier[j].version {
      assert later[i] == earlier[i] && later[j] == earlier[j];
    }
  }

  lemma {:induction false} PendingLater(earlier: seq<Migration>, rest: seq<Migration>, version: nat)
    requires forall i :: 0 <= i < |rest| ==> version < rest[i].version
    ensures Pending(earlier + rest, version) == Pending(earlier, version) + rest
  {
    if earlier == [] {
      assert earlier + rest == rest;
      PendingFrom(rest, version, 0);
    } else {
      assert (earlier + rest)[1..] == earlier[1..] + rest;
      PendingLater(earlier[1..], rest, version);
    }
  }

  lemma PendingOfLonger(earlier: seq<Migration>, rest: seq<Migration>, version: nat)
    requires VersionsIncrease(earlier + rest) && earlier != [] && version <= LastVersion(earlier)
    ensures Pending(earlier + rest, version) == Pending(earlier, version) + rest
    ensures Pending(earlier + rest, LastVersion(earlier)) == rest
  {
    LongerList(earlier, rest);
    forall i | 0 <= i < |rest| ensures LastVersion(earlier) < rest[i].version {
      assert rest[i] == (earlier + rest)[|earlier| + i];
    }
    PendingLater(earlier, rest, version);
    PendingLater(earlier, rest, LastVersion(earlier));
    PendingFrom(earlier, LastVersion(earlier), |earlier|);
  }

  /** Migrating with one list and then the other ends like migrating with the other at once: in the
      same database, or with the same failure. */
  ghost predicate SamePath<Schema(!new)>(exec: Executor<Schema>, db: Database<Schema>, earlier: seq<Migration>,
      later: seq<Migration>) {
    Outcome(exec, db, later) ==
      match Outcome(exec, db, earlier)
      case Err(e) => Err(e)
      case Ok(between) => Outcome(exec, between, later)
  }

  lemma InOrder<Schema(!new)>(exec: Executor<Schema>, db: Database<Schema>, migrations: seq<Migration>)
    requires VersionsIncrease(migrations) && (migrations == [] || db.version <= LastVersion(migrations))
    ensures Outcome(exec, db, migrations) == Executed(exec, db, Pending(migrations, db.version))
  {
  }

  lemma AfterFirst<Schema(!new)>(exec: Executor<Schema>, db: Database<Schema>, earlier: seq<Migration>)
    requires VersionsIncrease(earlier) && earlier != [] && db.version <= LastVersion(earlier)
    requires Executed(exec, db, Pending(earlier, db.version)).Ok?
    ensures Executed(exec, db, Pending(earlier, db.version)).value.version == LastVersion(earlier)
  {
    PendingShape(earlier, db.version);
    ExecutedVersion(exec, db, Pending(earlier, db.version));
  }

  lemma TwoSteps<Schema(!new)>(exec: Executor<Schema>, db: Database<Schema>, earlier: seq<Migration>,
      rest: seq<Migration>)
    requires VersionsIncrease(earlier + rest) && earlier != [] && db.version <= LastVersion(earlier)
    ensures SamePath(exec, db, earlier, earlier + rest)
  {
    LongerList(earlier, rest);
    assert rest == [] ==> earlier + rest == earlier;
    InOrder(exec, db, earlier);
    InOrder(exec, db, earlier + rest);
    PendingOfLonger(earlier, rest, db.version);
    ExecutedConcat(exec, db, Pending(earlier, db.version), rest);
    var between := Executed(exec, db, Pending(earlier, db.version));
    if between.Ok? {
      AfterFirst(exec, db, earlier);
      InOrder(exec, between.value, earlier + rest);
    }
  }

  /** An upgrade in two steps is the upgrade in one, unless the first step refuses a database that is already newer. */
  lemma PathIndependence<Schema(!new)>(exec: Executor<Schema>, db: Database<Schema>, earlier: seq<Migration>,
      later: seq<Migration>)
    requires VersionsIncrease(later) && earlier <= later
    ensures SamePath(exec, db, earlier, later) <==>
              (earlier == [] || db.version <= LastVersion(earlier) || earlier == later)
  {
    var rest := later[|earlier|..];
    assert later == earlier + rest;
    assert rest == [] ==> later == earlier;
    LongerList(earlier, rest);
    if earlier != [] && db.version <= LastVersion(earlier) {
      TwoSteps(exec, db, earlier, rest);
    } else if earlier == later && Outcome(exec, db, later).Ok? {
      RepeatDoesNothing(exec, db, later);
    }
  }

  // What a run does, told from the migrations and the executor alone

  /** Each schema is what the next step makes of the one before. */
  ghost predicate Ladder<Schema(!new)>(exec: Executor<Schema>, schemas: seq<Schema>, steps: seq<Migration>) {
    && |schemas| == |steps| + 1
    && forall i :: 0 <= i < |steps| ==> exec(schemas[i], steps[i].sql) == Some(schemas[i + 1])
  }

  /** The migrations from `k` on are those above the version. */
  ghost predicate StartsAt(migrations: seq<Migration>, version: nat, k: nat) {
    && k <= |migrations|
    && (forall i :: 0 <= i < k ==> migrations[i].version <= version)
    && (forall i :: k <= i < |migrations| ==> migrations[i].version > version)
  }

  ghost predicate LeadsTo<Schema(!new)>(exec: Executor<Schema>, from: Schema, steps: seq<Migration>, to: Schema) {
    exists schemas :: Ladder(exec, schemas, steps) && schemas[0] == from && schemas[|steps|] == to
  }

  /** Step `j` is the first that fails, on the schema the steps before it lead to. */
  ghost predicate FailsAt<Schema(!new)>(exec: Executor<Schema>, from: Schema, steps: seq<Migration>, j: nat) {
    j < |steps| && exists schema :: LeadsTo(exec, from, steps[..j], schema) && exec(schema, steps[j].sql) == None
  }

  ghost predicate FirstFailure<Schema(!new)>(exec: Executor<Schema>, from: Schema, steps: seq<Migration>,
      version: nat) {
    exists j: nat :: FailsAt(exec, from, steps, j) && version == steps[j].version
  }

  lemma {:induction false} LadderIsExecuted<Schema(!new)>(exec: Executor<Schema>, db: Database<Schema>,
      steps: seq<Migration>, schemas: seq<Schema>, rest: seq<Migration>)
    requires Ladder(exec, schemas, steps) && schemas[0] == db.schema
    ensures Executed(exec, db, steps + rest) ==
              Executed(exec, Database(schemas[|steps|], if steps == [] then db.version else LastVersion(steps)), rest)
    decreases |steps|
  {
    if steps == [] {
      assert steps + rest == rest;
    } else {
      assert (steps + rest)[1..] == steps[1..] + rest;
      forall i | 0 <= i < |steps[1..]| ensures exec(schemas[1..][i], steps[1..][i].sql) == Some(schemas[1..][i + 1]) {
        assert exec(schemas[i + 1], steps[i + 1].sql) == Some(schemas[i + 2]);
      }
      LadderIsExecuted(exec, Database(schemas[1], steps[0].version), steps[1..], schemas[1..], rest);
    }
  }

  lemma {:induction false} ExecutedIsLadder<Schema(!new)>(exec: Executor<Schema>, db: Database<Schema>,
      steps: seq<Migration>) returns (schemas: seq<Schema>, j: nat)
    ensures j <= |steps| && Ladder(exec, schemas, steps[..j]) && schemas[0] == db.schema
    ensures j < |steps| ==> exec(schemas[j], steps[j].sql) == None
    decreases |steps|
  {
    if steps == [] || exec(db.schema, steps[0].sql).None? {
      schemas, j := [db.schema], 0;
    } else {
      var next := exec(db.schema, steps[0].sql).value;
      schemas, j := ExecutedIsLadder(exec, Database(next, steps[0].version), steps[1..]);
      var above, done := schemas, steps[1..][..j];
      schemas, j := [db.schema] + schemas, j + 1;
      assert steps[..j] == [steps[0]] + done;
      forall i | 0 <= i < j ensures exec(schemas[i], steps[..j][i].sql) == Some(schemas[i + 1]) {
        if i > 0 {
          assert exec(above[i - 1], done[i - 1].sql) == Some(above[i]);
        }
      }
    }
  }

  /** The whole story of the pending steps: they lead to one schema, or one of them is the first to fail. */
  lemma ExecutedMeans<Schema(!new)>(exec: Executor<Schema>, db: Database<Schema>, steps: seq<Migration>)
    ensures forall after :: Executed(exec, db, steps) == Ok(after) <==>
              && LeadsTo(exec, db.schema, steps, after.schema)
              && after.version == if steps == [] then db.version else LastVersion(steps)
    ensures forall version :: Executed(exec, db, steps) == Err(MigrationFailed(version)) <==>
              FirstFailure(exec, db.schema, steps, version)
  {
    forall schemas | Ladder(exec, schemas, steps) && schemas[0] == db.schema
      ensures Executed(exec, db, steps) ==
              Ok(Database(schemas[|steps|], if steps == [] then db.version else LastVersion(steps)))
    {
      assert steps + [] == steps;
      LadderIsExecuted(exec, db, steps, schemas, []);
    }
    forall j: nat | FailsAt(exec, db.schema, steps, j)
      ensures Executed(exec, db, steps) == Err(MigrationFailed(steps[j].version))
    {
      FailureIsNamed(exec, db, steps, j);
    }
    var schemas, j := ExecutedIsLadder(exec, db, steps);
    if j == |steps| {
      assert steps[..j] == steps;
      assert LeadsTo(exec, db.schema, steps, schemas[j]);
    } else {
      assert LeadsTo(exec, db.schema, steps[..j], schemas[j]);
      assert FailsAt(exec, db.schema, steps, j);
    }
  }

  lemma FailureIsNamed<Schema(!new)>(exec: Executor<Schema>, db: Database<Schema>, steps: seq<Migration>, j: nat)
    requires FailsAt(exec, db.schema, steps, j)
    ensures Executed(exec, db, steps) == Err(MigrationFailed(steps[j].version))
  {
    var schema :| LeadsTo(exec, db.schema, steps[..j], schema) && exec(schema, steps[j].sql) == None;
    var schemas :| Ladder(exec, schemas, steps[..j]) && schemas[0] == db.schema && schemas[|steps[..j]|] == schema;
    assert steps[..j] + steps[j..] == steps;
    LadderIsExecuted(exec, db, steps[..j], schemas, steps[j..]);
  }

  /** Each version is above the one before it, and the database is not newer than the last. */
  ghost predicate CanMigrate(migrations: seq<Migration>, version: nat) {
    && (forall i :: 0 < i < |migrations| ==> migrations[i - 1].version < migrations[i].version)
    && (migrations != [] ==> version <= migrations[|migrations| - 1].version)
  }

  lemma {:induction false} NeighboursSuffice(migrations: seq<Migration>)
    ensures VersionsIncrease(migrations) <==>
              forall i :: 0 < i < |migrations| ==> migrations[i - 1].version < migrations[i].version
  {
    if |migrations| > 1 {
      var shorter := migrations[..|migrations| - 1];
      NeighboursSuffice(shorter);
      if forall i :: 0 < i < |migrations| ==> migrations[i - 1].version < migrations[i].version {
        forall i, j | 0 <= i < j < |migrations| ensures migrations[i].version < migrations[j].version {
          assert i < |shorter| - 1 ==> shorter[i].version < shorter[|shorter| - 1].version;
          assert j < |shorter| ==> shorter[i].version < shorter[j].version;
        }
      }
    }
  }

  /** Its schema leads to the new one through every migration above its version, in the order of the list. */
  ghost predicate Migrates<Schema(!new)>(exec: Executor<Schema>, before: Database<Schema>, migrations: seq<Migration>,
      after: Database<Schema>) {
    exists k: nat :: StartsAt(migrations, before.version, k)
      && LeadsTo(exec, before.schema, migrations[k..], after.schema)
      && after.version == if k == |migrations| then before.version else migrations[|migrations| - 1].version
  }

  /** The first migration whose SQL fails on the schema reached before it has this version. */
  ghost predicate FailsFirst<Schema(!new)>(exec: Executor<Schema>, before: Database<Schema>,
      migrations: seq<Migration>, version: nat) {
    exists k: nat :: StartsAt(migrations, before.version, k)
      && FirstFailure(exec, before.schema, migrations[k..], version)
  }

  lemma OneStart(migrations: seq<Migration>, version: nat, k: nat, l: nat)
    requires StartsAt(migrations, version, k) && StartsAt(migrations, version, l)
    ensures k == l
  {
    assert k < |migrations| ==> migrations[k].version > version;
    assert l < |migrations| ==> migrations[l].version > version;
  }

  /** A run goes through, and to which database, exactly if the migrations lead there. */
  lemma GoesThroughWhen<Schema(!new)>(exec: Executor<Schema>, db: Database<Schema>, migrations: seq<Migration>,
      after: Database<Schema>)
    ensures Outcome(exec, db, migrations) == Ok(after) <==>
              CanMigrate(migrations, db.version) && Migrates(exec, db, migrations, after)
  {
    NeighboursSuffice(migrations);
    if CanMigrate(migrations, db.version) {
      var k := FirstAbove(migrations, db.version);
      PendingShape(migrations, db.version);
      ExecutedMeans(exec, db, migrations[k..]);
      assert StartsAt(migrations, db.version, k);
      forall l | StartsAt(migrations, db.version, l) ensures l == k {
        OneStart(migrations, db.version, k, l);
      }
    }
  }

  /** A failed migration is the first one that fails. */
  lemma FailsWhen<Schema(!new)>(exec: Executor<Schema>, db: Database<Schema>, migrations: seq<Migration>, version: nat)
    ensures Outcome(exec, db, migrations) == Err(MigrationFailed(version)) <==>
              CanMigrate(migrations, db.version) && FailsFirst(exec, db, migrations, version)
  {
    NeighboursSuffice(migrations);
    if CanMigrate(migrations, db.version) {
      var k := FirstAbove(migrations, db.version);
      PendingShape(migrations, db.version);
      ExecutedMeans(exec, db, migrations[k..]);
      assert StartsAt(migrations, db.version, k);
      forall l | StartsAt(migrations, db.version, l) ensures l == k {
        OneStart(migrations, db.version, k, l);
      }
    }
  }

  ghost predicate Reaches<Schema(!new)>(exec: Executor<Schema>, db: Database<Schema>, migrations: seq<Migration>) {
    CanMigrate(migrations, db.version) && exists after :: Migrates(exec, db, migrations, after)
  }

  lemma OutcomeTold<Schema(!new)>(exec: Executor<Schema>, db: Database<Schema>, migrations: seq<Migration>)
    ensures Outcome(exec, db, migrations).Ok? <==> Reaches(exec, db, migrations)
    ensures Outcome(exec, db, migrations).Ok? ==> Migrates(exec, db, migrations, Outcome(exec, db, migrations).value)
    ensures var outcome := Outcome(exec, db, migrations);
            outcome.Err? && outcome.error.MigrationFailed? ==> FailsFirst(exec, db, migrations, outcome.error.version)
  {
    var outcome := Outcome(exec, db, migrations);
    if outcome.Ok? {
      GoesThroughWhen(exec, db, migrations, outcome.value);
    } else if outcome.error.MigrationFailed? {
      FailsWhen(exec, db, migrations, outcome.error.version);
    }
    if Reaches(exec, db, migrations) {
      var after :| Migrates(exec, db, migrations, after);
      GoesThroughWhen(exec, db, migrations, after);
    }
  }

  /** Only neighbours are compared. */
  method InOrderOfVersion(migrations: seq<Migration>) returns (ok: bool)
    ensures ok <==> VersionsIncrease(migrations)
  {
    var i := 1;
    while i < |migrations|
      invariant 1 <= i && forall j, k :: 0 <= j < k < i && k < |migrations| ==>
                migrations[j].version < migrations[k].version
    {
      if migrations[i - 1].version >= migrations[i].version {
        return false;
      }
      i := i + 1;
    }
    ok := true;
  }

  class EncryptedDatabase<Schema(!new)> {
    var schema: Schema
    var userVersion: nat

    function View(): Database<Schema>
      reads this
    {
      Database(schema, userVersion)
    }

    constructor (schema: Schema, userVersion: nat)
      ensures View() == Database(schema, userVersion)
    {
      this.schema := schema;
      this.userVersion := userVersion;
    }

    /** The transaction: every pending batch, or nothing. */
    method ExecutePending(exec: Executor<Schema>, pending: seq<Migration>) returns (r: Result<(), MigrationError>)
      modifies this
      ensures var outcome := Executed(exec, old(View()), pending);
              if outcome.Ok? then r == Ok(()) && View() == outcome.value
              else r == Err(outcome.error) && View() == old(View())
    {
      var before := View();
      for i := 0 to |pending|
        invariant Executed(exec, old(View()), pending) == Executed(exec, View(), pending[i..])
      {
        match exec(schema, pending[i].sql)
        case None =>
          schema, userVersion := before.schema, before.version;
          return Err(MigrationFailed(pending[i].version));
        case Some(changed) =>
          assert pending[i..][1..] == pending[i + 1..];
          schema, userVersion := changed, pending[i].version;
      }
      r := Ok(());
    }

    /** Whether the version can be read, a transaction begun and, in the end, committed. */
    method ApplyMigrations(exec: Executor<Schema>, migrations: seq<Migration>, readable: bool, begun: bool,
        committed: bool)
      returns (r: Result<(), MigrationError>)
      modifies this
      ensures var outcome := Outcome(exec, old(View()), migrations);
              var writes := outcome.Ok? && Pending(migrations, old(userVersion)) != [];
              if !VersionsIncrease(migrations) then r == Err(InvalidMigrationOrder) && View() == old(View())
              else if !readable then r == Err(DatabaseOpen) && View() == old(View())
              else if outcome.Ok? && !writes then r == Ok(()) && View() == old(View()) == outcome.value
              else if !begun && !(outcome.Err? && outcome.error.DatabaseVersionTooNew?)
              then r == Err(DatabaseOpen) && View() == old(View())
              else if outcome.Err? then r == Err(outcome.error) && View() == old(View())
              else if writes && !committed then r == Err(MigrationFailed(LastVersion(migrations)))
                && View() == old(View())
              else r == Ok(()) && View() == outcome.value
      ensures r.Ok? ==> Migrates(exec, old(View()), migrations, View())
      ensures r.Err? ==> View() == old(View())
      ensures readable && begun && committed ==> (r.Ok? <==> Reaches(exec, old(View()), migrations))
      ensures readable && begun && committed && r.Err? && r.error.MigrationFailed? ==>
                FailsFirst(exec, old(View()), migrations, r.error.version)
    {
      OutcomeTold(exec, View(), migrations);
      var ordered := InOrderOfVersion(migrations);
      if !ordered {
        return Err(InvalidMigrationOrder);
      }
      if !readable {
        return Err(DatabaseOpen);
      }
      var currentVersion := userVersion;
      if migrations != [] && currentVersion > LastVersion(migrations) {
        return Err(DatabaseVersionTooNew(currentVersion, LastVersion(migrations)));
      }
      var pending := Pending(migrations, currentVersion);
      if pending == [] {
        return Ok(());
      }
      if !begun {
        return Err(DatabaseOpen);
      }
      var before := View();
      r := ExecutePending(exec, pending);
      if r.Err? {
        return;
      }
      if !committed {
        schema, userVersion := before.schema, before.version;
        return Err(MigrationFailed(LastVersion(migrations)));
      }
      r := Ok(());
    }
  }
}
