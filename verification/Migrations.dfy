// runMigrations of internal/server/store/sqlite.go, and the start-up that calls it, on a process that
// may die between any two database statements.
module Migrations {
  import opened MigrationSplitter
  import opened Text

  // What one statement of a script does to the schema: it needs some objects and adds one. ALTER TABLE
  // ADD COLUMN, CREATE ... IF NOT EXISTS and INSERT OR IGNORE all have this form.
  datatype Statement = Statement(needs: set<string>, adds: string)

  datatype Migration = Migration(version: nat, sql: string)

  // The schema objects present and the rows of schema_version in insertion order.
  datatype Db = Db(objects: set<string>, versions: seq<nat>)

  datatype Action = Exec(stmt: string) | Record(version: nat)

  // A run ends with ok == false at the first error that is not tolerated.
  datatype Run = Run(db: Db, ok: bool)

  // How the SQL engine reads a statement.
  type Meaning = string -> Statement

  // ---- Specification ----

  // An object that is already there ("duplicate column", "already exists") is no error.
  function Apply(meaning: Meaning, db: Db, a: Action): Run {
    match a
    case Exec(stmt) =>
      var s := meaning(stmt);
      if s.adds in db.objects then Run(db, true)
      else if s.needs <= db.objects then Run(db.(objects := db.objects + {s.adds}), true)
      else Run(db, false)
    case Record(v) =>
      if v in db.versions then Run(db, false) else Run(db.(versions := db.versions + [v]), true)
  }

  function ApplyAll(meaning: Meaning, db: Db, actions: seq<Action>): Run
    decreases |actions|
  {
    if actions == [] then Run(db, true)
    else
      var r := Apply(meaning, db, actions[0]);
      if r.ok then ApplyAll(meaning, r.db, actions[1..]) else r
  }

  // SELECT COALESCE(MAX(version), 0)
  function MaxVersion(versions: seq<nat>): nat {
    if versions == [] then 0
    else
      var rest := MaxVersion(versions[1..]);
      if versions[0] > rest then versions[0] else rest
  }

  function Execs(stmts: seq<string>): (actions: seq<Action>)
    ensures |actions| == |stmts|
    ensures forall i :: 0 <= i < |stmts| ==> actions[i] == Exec(stmts[i])
  {
    seq(|stmts|, i requires 0 <= i < |stmts| => Exec(stmts[i]))
  }

  // The statements still to be executed at a given recorded version, each migration followed by its record.
  function Script(migrations: seq<Migration>, version: nat): seq<Action> {
    if migrations == [] then []
    else
      var m := migrations[0];
      (if m.version <= version then [] else Execs(Split(m.sql)) + [Record(m.version)])
      + Script(migrations[1..], version)
  }

  // Everything a start-up executes: the idempotent base schema, then the pending migrations.
  function StartupScript(base: seq<string>, migrations: seq<Migration>, db: Db): seq<Action> {
    Execs(base) + Script(migrations, MaxVersion(db.versions))
  }

  function Startup(meaning: Meaning, base: seq<string>, migrations: seq<Migration>, db: Db): Run {
    ApplyAll(meaning, db, StartupScript(base, migrations, db))
  }

  // The database a process leaves behind when it dies after `k` statements.
  function Crashed(meaning: Meaning, base: seq<string>, migrations: seq<Migration>, db: Db, k: nat): Db {
    var script := StartupScript(base, migrations, db);
    ApplyAll(meaning, db, script[..if k < |script| then k else |script|]).db
  }

  function CrashedRepeatedly(meaning: Meaning, base: seq<string>, migrations: seq<Migration>, db: Db, ks: seq<nat>): Db
    decreases |ks|
  {
    if ks == [] then db
    else CrashedRepeatedly(meaning, base, migrations, Crashed(meaning, base, migrations, db, ks[0]), ks[1..])
  }

  datatype Status = Completed | Failed | Died

  // A process that gets to execute `budget` statements.
  function RunWithin(meaning: Meaning, db: Db, script: seq<Action>, budget: nat): (Db, Status)
    decreases |script|
  {
    if script == [] then (db, Completed)
    else if budget == 0 then (db, Died)
    else
      var r := Apply(meaning, db, script[0]);
      if r.ok then RunWithin(meaning, r.db, script[1..], budget - 1) else (r.db, Failed)
  }

  lemma {:induction false} RunWithinPrefix(meaning: Meaning, db: Db, script: seq<Action>, budget: nat)
    ensures var n := if budget < |script| then budget else |script|;
            var run := ApplyAll(meaning, db, script[..n]);
            var status := if !run.ok then Failed else if n == |script| then Completed else Died;
            RunWithin(meaning, db, script, budget) == (run.db, status)
    decreases |script|
  {
    if script != [] && budget > 0 {
      var n := if budget < |script| then budget else |script|;
      assert script[..n][1..] == script[1..][..n - 1];
      RunWithinPrefix(meaning, Apply(meaning, db, script[0]).db, script[1..], budget - 1);
    }
  }

  ghost predicate Increasing(migrations: seq<Migration>) {
    forall i, j :: 0 <= i < j < |migrations| ==> migrations[i].version < migrations[j].version
  }

  // ---- The nested loops ----

  class Database {
    var db: Db
    const meaning: Meaning

    constructor (meaning: Meaning)
      ensures db == Db({}, []) && this.meaning == meaning
    {
      this.meaning := meaning;
      db := Db({}, []);
    }

    method Execute(a: Action) returns (ok: bool)
      modifies this`db
      ensures Run(db, ok) == Apply(meaning, old(db), a)
      // A statement fails only when what it adds is not there yet and something it needs is missing.
      ensures a.Exec? ==>
                var st := meaning(a.stmt);
                && (ok <==> st.adds in old(db).objects || st.needs <= old(db).objects)
                && db.objects == (if ok then old(db).objects + {st.adds} else old(db).objects)
                && db.versions == old(db).versions
      ensures a.Record? ==>
                && (ok <==> a.version !in old(db).versions)
                && db.versions == (if ok then old(db).versions + [a.version] else old(db).versions)
                && db.objects == old(db).objects
    {
      var r := Apply(meaning, db, a);
      db := r.db;
      ok := r.ok;
    }

    // `budget` is the number of statements the process gets to execute before it dies.
    method RunMigrations(migrations: seq<Migration>, budget: nat) returns (status: Status)
      modifies this`db
      ensures (db, status) == RunWithin(meaning, old(db), Script(migrations, MaxVersion(old(db).versions)), budget)
    {
      hide Split, MaxVersion, Apply, TrimSpace;
      var version := MaxVersion(db.versions);
      ghost var goal := RunWithin(meaning, db, Script(migrations, version), budget);
      var left := budget;
      for i := 0 to |migrations|
        invariant RunWithin(meaning, db, Script(migrations[i..], version), left) == goal
      {
        var m := migrations[i];
        ghost var rest := Script(migrations[i + 1..], version);
        assert migrations[i..][1..] == migrations[i + 1..];
        if m.version <= version {
          assert [] + rest == rest;
          continue;
        }
        var stmts := Split(m.sql);
        assert Execs(stmts) == Execs(stmts[0..]);
        for j := 0 to |stmts|
          invariant RunWithin(meaning, db, Execs(stmts[j..]) + [Record(m.version)] + rest, left) == goal
        {
          StatementsTrimmed(m.sql, j);
          var stmt := TrimSpace(stmts[j]);
          if stmt == "" {
            continue;
          }
          if left == 0 {
            return Died;
          }
          NextExec(stmts, j, [Record(m.version)] + rest);
          ConcatAssoc(Execs(stmts[j..]), [Record(m.version)], rest);
          ConcatAssoc(Execs(stmts[j + 1..]), [Record(m.version)], rest);
          var ok := Execute(Exec(stmt));
          if !ok {
            return Failed;
          }
          left := left - 1;
        }
        if left == 0 {
          return Died;
        }
        ghost var script := Execs(stmts[|stmts|..]) + [Record(m.version)] + rest;
        assert script[0] == Record(m.version) && script[1..] == rest;
        var ok := Execute(Record(m.version));
        if !ok {
          return Failed;
        }
        left := left - 1;
      }
      return Completed;
    }
  }

  lemma {:induction false} NextExec(stmts: seq<string>, j: nat, rest: seq<Action>)
    requires j < |stmts|
    ensures var script := Execs(stmts[j..]) + rest;
            script != [] && script[0] == Exec(stmts[j]) && script[1..] == Execs(stmts[j + 1..]) + rest
  {
  }

  // The TrimSpace and the empty check inside the loop never change anything.
  lemma {:induction false} StatementsTrimmed(sql: string, i: nat)
    requires i < |Split(sql)|
    ensures TrimSpace(Split(sql)[i]) == Split(sql)[i] != ""
  {
    hide Split, TrimSpace;
    OutputShape(sql, i);
    TrimmedFixed(Split(sql)[i]);
  }

  lemma {:induction false} ApplyConcat(meaning: Meaning, db: Db, a: seq<Action>, b: seq<Action>)
    ensures var r := ApplyAll(meaning, db, a);
            ApplyAll(meaning, db, a + b) == if r.ok then ApplyAll(meaning, r.db, b) else r
    decreases |a|
  {
    if a == [] {
      assert a + b == b;
    } else {
      assert (a + b)[1..] == a[1..] + b;
      ApplyConcat(meaning, Apply(meaning, db, a[0]).db, a[1..], b);
    }
  }

  // ---- Replaying ----

  predicate OnlyExecs(actions: seq<Action>) { forall i :: 0 <= i < |actions| ==> actions[i].Exec? }

  lemma {:induction false} Grows(meaning: Meaning, db: Db, actions: seq<Action>)
    ensures db.objects <= ApplyAll(meaning, db, actions).db.objects
    ensures OnlyExecs(actions) ==> ApplyAll(meaning, db, actions).db.versions == db.versions
    decreases |actions|
  {
    if actions != [] {
      Grows(meaning, Apply(meaning, db, actions[0]).db, actions[1..]);
    }
  }

  // Executing statements again on the database they left changes nothing and ends the same way.
  lemma {:induction false} Replay(meaning: Meaning, db: Db, execs: seq<Action>)
    requires OnlyExecs(execs)
    ensures var r := ApplyAll(meaning, db, execs); ApplyAll(meaning, r.db, execs) == r
    decreases |execs|
  {
    if execs != [] {
      var next := Apply(meaning, db, execs[0]);
      if next.ok {
        Replay(meaning, next.db, execs[1..]);
        Grows(meaning, next.db, execs[1..]);
      }
    }
  }

  // Dying inside a stretch of statements and starting that stretch again is not noticed.
  lemma {:induction false} ReplayPrefix(meaning: Meaning, db: Db, script: seq<Action>, k: nat)
    requires k <= |script| && OnlyExecs(script[..k])
    ensures ApplyAll(meaning, ApplyAll(meaning, db, script[..k]).db, script) == ApplyAll(meaning, db, script)
  {
    var c := ApplyAll(meaning, db, script[..k]).db;
    Replay(meaning, db, script[..k]);
    ApplyConcat(meaning, db, script[..k], script[k..]);
    ApplyConcat(meaning, c, script[..k], script[k..]);
    assert script == script[..k] + script[k..];
  }

  // ---- Versions ----

  lemma {:induction false} MaxVersionUpper(versions: seq<nat>)
    ensures forall v :: v in versions ==> v <= MaxVersion(versions)
    ensures MaxVersion(versions) == 0 || MaxVersion(versions) in versions
  {
    if versions != [] {
      MaxVersionUpper(versions[1..]);
      assert versions == [versions[0]] + versions[1..];
    }
  }

  lemma {:induction false} MaxVersionAppend(versions: seq<nat>, v: nat)
    requires v > MaxVersion(versions)
    ensures v !in versions && MaxVersion(versions + [v]) == v
  {
    MaxVersionUpper(versions);
    MaxVersionUpper(versions + [v]);
    assert v in versions + [v];
  }

  // A run never lowers the recorded version.
  lemma {:induction false} VersionGrows(meaning: Meaning, db: Db, actions: seq<Action>)
    ensures MaxVersion(ApplyAll(meaning, db, actions).db.versions) >= MaxVersion(db.versions)
    decreases |actions|
  {
    if actions != [] {
      var next := Apply(meaning, db, actions[0]);
      MaxVersionUpper(db.versions);
      MaxVersionUpper(next.db.versions);
      assert forall v :: v in db.versions ==> v in next.db.versions;
      VersionGrows(meaning, next.db, actions[1..]);
    }
  }

  lemma {:induction false} ScriptSame(migrations: seq<Migration>, v: nat, w: nat)
    requires forall i :: 0 <= i < |migrations| ==> migrations[i].version > v && migrations[i].version > w
    ensures Script(migrations, v) == Script(migrations, w)
  {
    if migrations != [] {
      ScriptSame(migrations[1..], v, w);
    }
  }

  // ---- Restarting ----

  function RunPending(meaning: Meaning, migrations: seq<Migration>, db: Db): Run {
    ApplyAll(meaning, db, Script(migrations, MaxVersion(db.versions)))
  }

  // One migration that is still pending.
  function Block(m: Migration): seq<Action> { Execs(Split(m.sql)) + [Record(m.version)] }

  // A completed migration is never looked at again.
  lemma {:induction false} SkipDone(meaning: Meaning, migrations: seq<Migration>, db: Db)
    requires migrations != [] && migrations[0].version <= MaxVersion(db.versions)
    ensures RunPending(meaning, migrations, db) == RunPending(meaning, migrations[1..], db)
    ensures Script(migrations, MaxVersion(db.versions)) == Script(migrations[1..], MaxVersion(db.versions))
  {
    hide ApplyAll;
    var v := MaxVersion(db.versions);
    assert Script(migrations, v) == [] + Script(migrations[1..], v) == Script(migrations[1..], v);
  }

  // After the first pending migration went through, the rest of the script is what a new run would execute.
  lemma {:induction false} BlockDone(meaning: Meaning, migrations: seq<Migration>, db: Db)
    requires migrations != [] && Increasing(migrations) && migrations[0].version > MaxVersion(db.versions)
    ensures var r := ApplyAll(meaning, db, Execs(Split(migrations[0].sql)));
            var b := ApplyAll(meaning, db, Block(migrations[0]));
            && (r.ok ==> b.ok && MaxVersion(b.db.versions) == migrations[0].version)
            && (!r.ok ==> b == r)
    ensures Script(migrations[1..], MaxVersion(db.versions)) == Script(migrations[1..], migrations[0].version)
  {
    hide Split;
    var m := migrations[0];
    var execs := Execs(Split(m.sql));
    var r := ApplyAll(meaning, db, execs);
    ApplyConcat(meaning, db, execs, [Record(m.version)]);
    Grows(meaning, db, execs);
    MaxVersionAppend(db.versions, m.version);
    assert [Record(m.version)][1..] == [];
    ScriptSame(migrations[1..], MaxVersion(db.versions), m.version);
  }

  lemma {:induction false} CrashInMigrations(meaning: Meaning, migrations: seq<Migration>, db: Db, k: nat)
    requires Increasing(migrations) && k <= |Script(migrations, MaxVersion(db.versions))|
    ensures var c := ApplyAll(meaning, db, Script(migrations, MaxVersion(db.versions))[..k]).db;
            RunPending(meaning, migrations, c) == RunPending(meaning, migrations, db)
    decreases |migrations|
  {
    hide Split, MaxVersion;
    var v := MaxVersion(db.versions);
    var script := Script(migrations, v);
    if migrations != [] {
      var m, rest := migrations[0], migrations[1..];
      if m.version <= v {
        SkipDone(meaning, migrations, db);
        CrashInMigrations(meaning, rest, db, k);
        VersionGrows(meaning, db, script[..k]);
        SkipDone(meaning, migrations, ApplyAll(meaning, db, script[..k]).db);
      } else {
        CrashInPending(meaning, migrations, db, k);
      }
    }
  }

  // The first migration is pending: the crash falls into it or after it.
  lemma {:induction false} CrashInPending(meaning: Meaning, migrations: seq<Migration>, db: Db, k: nat)
    requires migrations != [] && Increasing(migrations) && migrations[0].version > MaxVersion(db.versions)
    requires k <= |Script(migrations, MaxVersion(db.versions))|
    ensures var c := ApplyAll(meaning, db, Script(migrations, MaxVersion(db.versions))[..k]).db;
            RunPending(meaning, migrations, c) == RunPending(meaning, migrations, db)
    decreases |migrations|, 1
  {
    var execs := Execs(Split(migrations[0].sql));
    BlockDone(meaning, migrations, db);
    if k <= |execs| || !ApplyAll(meaning, db, execs).ok {
      CrashInBlock(meaning, migrations, db, k);
    } else {
      hide *;
      CrashAfterBlock(meaning, migrations, db, k);
    }
  }

  lemma {:induction false} FirstBlock(migrations: seq<Migration>, v: nat)
    requires migrations != [] && migrations[0].version > v
    ensures Script(migrations, v) == Block(migrations[0]) + Script(migrations[1..], v)
    ensures Script(migrations, v) == Execs(Split(migrations[0].sql)) + ([Record(migrations[0].version)] + Script(migrations[1..], v))
  {
    hide Split;
  }

  // The crash falls into the statements of the first migration, or they fail.
  lemma {:induction false} CrashInBlock(meaning: Meaning, migrations: seq<Migration>, db: Db, k: nat)
    requires migrations != [] && migrations[0].version > MaxVersion(db.versions)
    requires k <= |Script(migrations, MaxVersion(db.versions))|
    requires var execs := Execs(Split(migrations[0].sql)); k <= |execs| || !ApplyAll(meaning, db, execs).ok
    ensures var c := ApplyAll(meaning, db, Script(migrations, MaxVersion(db.versions))[..k]).db;
            RunPending(meaning, migrations, c) == RunPending(meaning, migrations, db)
  {
    hide Split, MaxVersion, Script;
    var v := MaxVersion(db.versions);
    var script, execs := Script(migrations, v), Execs(Split(migrations[0].sql));
    FirstBlock(migrations, v);
    var j := if k <= |execs| then k else |execs|;
    assert script[..j] == execs[..j];
    if k > |execs| {
      ApplyConcat(meaning, db, execs, script[|execs|..k]);
      assert script[..k] == execs + script[|execs|..k] && execs[..j] == execs;
    }
    ReplayPrefix(meaning, db, script, j);
    Grows(meaning, db, script[..j]);
  }

  // The first migration is complete; the crash falls into the rest.
  lemma {:induction false} CrashAfterBlock(meaning: Meaning, migrations: seq<Migration>, db: Db, k: nat)
    requires migrations != [] && Increasing(migrations) && migrations[0].version > MaxVersion(db.versions)
    requires |Execs(Split(migrations[0].sql))| < k <= |Script(migrations, MaxVersion(db.versions))|
    requires ApplyAll(meaning, db, Execs(Split(migrations[0].sql))).ok
    ensures var c := ApplyAll(meaning, db, Script(migrations, MaxVersion(db.versions))[..k]).db;
            RunPending(meaning, migrations, c) == RunPending(meaning, migrations, db)
    decreases |migrations|, 0
  {
    hide Split, MaxVersion, Script;
    var v := MaxVersion(db.versions);
    var script, rest, block := Script(migrations, v), migrations[1..], Block(migrations[0]);
    var tail := Script(rest, v);
    FirstBlock(migrations, v);
    BlockDone(meaning, migrations, db);
    var done := ApplyAll(meaning, db, block).db;
    var k' := k - |block|;
    assert script[..k] == block + tail[..k'];
    ApplyConcat(meaning, db, block, tail[..k']);
    ApplyConcat(meaning, db, block, tail);
    CrashInMigrations(meaning, rest, done, k');
    VersionGrows(meaning, done, tail[..k']);
    SkipDone(meaning, migrations, ApplyAll(meaning, done, tail[..k']).db);
  }

  lemma {:induction false} StartupSplits(meaning: Meaning, base: seq<string>, migrations: seq<Migration>, db: Db)
    ensures var r := ApplyAll(meaning, db, Execs(base));
            Startup(meaning, base, migrations, db) == if r.ok then RunPending(meaning, migrations, r.db) else r
  {
    hide Script;
    Grows(meaning, db, Execs(base));
    ApplyConcat(meaning, db, Execs(base), Script(migrations, MaxVersion(db.versions)));
  }

  // The base schema does nothing on a database that has it.
  lemma {:induction false} BaseStays(meaning: Meaning, base: seq<string>, db: Db, actions: seq<Action>)
    requires ApplyAll(meaning, db, Execs(base)).ok
    ensures var d := ApplyAll(meaning, ApplyAll(meaning, db, Execs(base)).db, actions).db;
            ApplyAll(meaning, d, Execs(base)) == Run(d, true)
  {
    BaseStaysFrom(meaning, Execs(base), db, ApplyAll(meaning, ApplyAll(meaning, db, Execs(base)).db, actions).db) by {
      Grows(meaning, ApplyAll(meaning, db, Execs(base)).db, actions);
    }
  }

  lemma {:induction false} BaseStaysFrom(meaning: Meaning, execs: seq<Action>, db: Db, d: Db)
    requires OnlyExecs(execs) && ApplyAll(meaning, db, execs).ok
    requires ApplyAll(meaning, db, execs).db.objects <= d.objects
    ensures ApplyAll(meaning, d, execs) == Run(d, true)
    decreases |execs|
  {
    if execs != [] {
      var next := Apply(meaning, db, execs[0]);
      Grows(meaning, next.db, execs[1..]);
      BaseStaysFrom(meaning, execs[1..], next.db, d);
    }
  }

  // Dying after any statement and starting again gives exactly what an undisturbed start-up gives: the
  // same objects, the same version rows, and the same verdict when the script itself is faulty.
  lemma {:induction false} CrashOnce(meaning: Meaning, base: seq<string>, migrations: seq<Migration>, db: Db, k: nat)
    requires Increasing(migrations)
    ensures Startup(meaning, base, migrations, Crashed(meaning, base, migrations, db, k))
            == Startup(meaning, base, migrations, db)
  {
    hide Script, MaxVersion;
    var execs := Execs(base);
    var pending := Script(migrations, MaxVersion(db.versions));
    var script := execs + pending;
    var n := if k < |script| then k else |script|;
    var c := Crashed(meaning, base, migrations, db, k);
    var r := ApplyAll(meaning, db, execs);
    if n <= |execs| || !r.ok {
      var j := if n <= |execs| then n else |execs|;
      assert script[..j] == execs[..j];
      if n > |execs| {
        ApplyConcat(meaning, db, execs, script[|execs|..n]);
        assert script[..n] == execs + script[|execs|..n] && execs[..j] == execs;
      }
      ReplayPrefix(meaning, db, script, j);
      Grows(meaning, db, script[..j]);
    } else {
      var j := n - |execs|;
      assert script[..n] == execs + pending[..j];
      ApplyConcat(meaning, db, execs, pending[..j]);
      Grows(meaning, db, execs);
      BaseStays(meaning, base, db, pending[..j]);
      StartupSplits(meaning, base, migrations, db);
      StartupSplits(meaning, base, migrations, c);
      CrashInMigrations(meaning, migrations, r.db, j);
    }
  }

  lemma {:induction false} CrashRestartable(meaning: Meaning, base: seq<string>, migrations: seq<Migration>, db: Db, ks: seq<nat>)
    requires Increasing(migrations)
    ensures Startup(meaning, base, migrations, CrashedRepeatedly(meaning, base, migrations, db, ks))
            == Startup(meaning, base, migrations, db)
    decreases |ks|
  {
    hide Startup, Crashed;
    if ks != [] {
      CrashRestartable(meaning, base, migrations, Crashed(meaning, base, migrations, db, ks[0]), ks[1..]);
      CrashOnce(meaning, base, migrations, db, ks[0]);
    }
  }

  // ---- After a successful run ----

  lemma {:induction false} AllRecorded(meaning: Meaning, migrations: seq<Migration>, db: Db)
    requires Increasing(migrations) && RunPending(meaning, migrations, db).ok
    ensures var v := MaxVersion(RunPending(meaning, migrations, db).db.versions);
            forall i :: 0 <= i < |migrations| ==> migrations[i].version <= v
    decreases |migrations|
  {
    hide Split, MaxVersion;
    if migrations != [] {
      var m, rest := migrations[0], migrations[1..];
      var v := MaxVersion(db.versions);
      if m.version <= v {
        SkipDone(meaning, migrations, db);
        AllRecorded(meaning, rest, db);
        VersionGrows(meaning, db, Script(migrations, v));
      } else {
        BlockDone(meaning, migrations, db);
        var done := ApplyAll(meaning, db, Block(m)).db;
        ApplyConcat(meaning, db, Block(m), Script(rest, v));
        AllRecorded(meaning, rest, done);
        VersionGrows(meaning, done, Script(rest, v));
      }
      var final := MaxVersion(RunPending(meaning, migrations, db).db.versions);
      forall i | 0 <= i < |migrations|
        ensures migrations[i].version <= final
      {
        if i > 0 {
          assert migrations[i] == rest[i - 1];
        }
      }
    }
  }

  lemma {:induction false} NothingPending(migrations: seq<Migration>, v: nat)
    requires forall i :: 0 <= i < |migrations| ==> migrations[i].version <= v
    ensures Script(migrations, v) == []
  {
    if migrations != [] {
      NothingPending(migrations[1..], v);
    }
  }

  // A start-up that succeeded leaves nothing to do: the next one executes no migration statement, records
  // no version and changes nothing.
  lemma {:induction false} SecondStartupIdle(meaning: Meaning, base: seq<string>, migrations: seq<Migration>, db: Db)
    requires Increasing(migrations) && Startup(meaning, base, migrations, db).ok
    ensures var d := Startup(meaning, base, migrations, db).db;
            && Script(migrations, MaxVersion(d.versions)) == []
            && Startup(meaning, base, migrations, d) == Run(d, true)
  {
    hide Script, MaxVersion;
    StartupSplits(meaning, base, migrations, db);
    var mid := ApplyAll(meaning, db, Execs(base)).db;
    AllRecorded(meaning, migrations, mid);
    var d := Startup(meaning, base, migrations, db).db;
    NothingPending(migrations, MaxVersion(d.versions));
    BaseStays(meaning, base, db, Script(migrations, MaxVersion(mid.versions)));
    assert StartupScript(base, migrations, d) == Execs(base);
  }

  // ---- What a successful start-up leaves ----

  lemma {:induction false} AppliedExactly(meaning: Meaning, db: Db, actions: seq<Action>)
    requires ApplyAll(meaning, db, actions).ok
    ensures var d := ApplyAll(meaning, db, actions).db;
            && (forall x :: x in d.objects <==> x in db.objects || exists a :: a in actions && Adds(meaning, a, x))
            && (forall v :: v in d.versions <==> v in db.versions || Record(v) in actions)
            && db.versions <= d.versions
    decreases |actions|
  {
    if actions != [] {
      var a := actions[0];
      var r := Apply(meaning, db, a);
      AppliedExactly(meaning, r.db, actions[1..]);
      hide ApplyAll;
      assert actions == [a] + actions[1..];
      assert forall b :: b in actions <==> b == a || b in actions[1..];
      assert forall x :: x in r.db.objects <==> x in db.objects || Adds(meaning, a, x);
      assert forall v :: v in r.db.versions <==> v in db.versions || a == Record(v);
    }
  }

  predicate Adds(meaning: Meaning, a: Action, x: string) { a.Exec? && meaning(a.stmt).adds == x }

  lemma {:induction false} ScriptMembers(migrations: seq<Migration>, v: nat, a: Action)
    ensures a in Script(migrations, v) <==>
              exists i :: 0 <= i < |migrations| && migrations[i].version > v && Belongs(a, migrations[i])
    decreases |migrations|
  {
    hide Split, Belongs;
    if migrations != [] {
      var m, rest := migrations[0], migrations[1..];
      ScriptMembers(rest, v, a);
      BlockMembers(m, a);
      assert Script(migrations, v) == (if m.version <= v then [] else Execs(Split(m.sql)) + [Record(m.version)]) + Script(rest, v);
      OlderOrLater(migrations, v, a);
      hide *;
    }
  }

  lemma {:induction false} OlderOrLater(migrations: seq<Migration>, v: nat, a: Action)
    requires migrations != []
    ensures var m, rest := migrations[0], migrations[1..];
            (exists i :: 0 <= i < |migrations| && migrations[i].version > v && Belongs(a, migrations[i]))
            <==> (m.version > v && Belongs(a, m)) || exists i :: 0 <= i < |rest| && rest[i].version > v && Belongs(a, rest[i])
  {
    hide *;
    var rest := migrations[1..];
    forall i | 0 <= i < |rest|
      ensures rest[i] == migrations[i + 1]
    {
    }
    if i :| 0 <= i < |rest| && rest[i].version > v && Belongs(a, rest[i]) {
      assert migrations[i + 1] == rest[i];
    }
    if i :| 0 < i < |migrations| && migrations[i].version > v && Belongs(a, migrations[i]) {
      assert rest[i - 1] == migrations[i];
    }
  }

  lemma {:induction false} BlockMembers(m: Migration, a: Action)
    ensures a in Execs(Split(m.sql)) + [Record(m.version)] <==> Belongs(a, m)
  {
    hide Split;
    var stmts := Split(m.sql);
    assert forall i :: 0 <= i < |stmts| ==> Execs(stmts)[i] == Exec(stmts[i]) && stmts[i] in stmts;
  }

  // The statements of a migration, and its record.
  predicate Belongs(a: Action, m: Migration) {
    match a
    case Exec(stmt) => stmt in Split(m.sql)
    case Record(version) => version == m.version
  }

  // Pending: newer than every recorded version.
  ghost predicate Newer(m: Migration, versions: seq<nat>) { m.version > 0 && forall v :: v in versions ==> v < m.version }

  // Something the script, the base schema or a pending migration adds.
  ghost predicate ScriptAdds(meaning: Meaning, script: seq<Action>, x: string) {
    exists a :: a in script && Adds(meaning, a, x)
  }

  ghost predicate BaseAdds(meaning: Meaning, base: seq<string>, x: string) {
    exists stmt :: stmt in base && meaning(stmt).adds == x
  }

  ghost predicate PendingAdds(meaning: Meaning, migrations: seq<Migration>, versions: seq<nat>, x: string) {
    exists i, stmt :: 0 <= i < |migrations| && Newer(migrations[i], versions) && stmt in Split(migrations[i].sql)
                      && meaning(stmt).adds == x
  }

  ghost predicate PendingHas(migrations: seq<Migration>, versions: seq<nat>, a: Action) {
    exists i :: 0 <= i < |migrations| && Newer(migrations[i], versions) && Belongs(a, migrations[i])
  }

  // A start-up that succeeds has added exactly what the base schema and the statements of the pending
  // migrations add, and recorded exactly the pending versions.
  lemma {:induction false} StartupExactly(meaning: Meaning, base: seq<string>, migrations: seq<Migration>, db: Db)
    requires Startup(meaning, base, migrations, db).ok
    ensures var d := Startup(meaning, base, migrations, db).db;
            && (forall x :: x in d.objects <==>
                  x in db.objects || BaseAdds(meaning, base, x) || PendingAdds(meaning, migrations, db.versions, x))
            && (forall v :: v in d.versions <==>
                  v in db.versions || exists i :: 0 <= i < |migrations| && Newer(migrations[i], db.versions) && migrations[i].version == v)
            && db.versions <= d.versions
  {
    var script := StartupScript(base, migrations, db);
    AppliedExactly(meaning, db, script);
    forall a
      ensures a in script <==> (a.Exec? && a.stmt in base) || PendingHas(migrations, db.versions, a)
    {
      StartupMembers(base, migrations, db, a);
    }
    hide StartupScript, ApplyAll, PendingAdds, BaseAdds;
    var d := ApplyAll(meaning, db, script).db;
    forall x: string
      ensures x in d.objects <==> x in db.objects || BaseAdds(meaning, base, x) || PendingAdds(meaning, migrations, db.versions, x)
    {
      AddedBy(meaning, base, migrations, db.versions, script, x);
      assert x in d.objects <==> x in db.objects || ScriptAdds(meaning, script, x);
    }
    forall v: nat
      ensures v in d.versions <==>
                v in db.versions || exists i :: 0 <= i < |migrations| && Newer(migrations[i], db.versions) && migrations[i].version == v
    {
      assert v in d.versions <==> v in db.versions || Record(v) in script;
      RecordsOf(migrations, db.versions, v);
    }
  }

  lemma {:induction false} RecordsOf(migrations: seq<Migration>, versions: seq<nat>, v: nat)
    ensures PendingHas(migrations, versions, Record(v))
            <==> exists i :: 0 <= i < |migrations| && Newer(migrations[i], versions) && migrations[i].version == v
  {
    hide Newer;
    if PendingHas(migrations, versions, Record(v)) {
      var i :| 0 <= i < |migrations| && Newer(migrations[i], versions) && Belongs(Record(v), migrations[i]);
      assert migrations[i].version == v;
    }
    forall i | 0 <= i < |migrations| && Newer(migrations[i], versions) && migrations[i].version == v
      ensures PendingHas(migrations, versions, Record(v))
    {
      assert Belongs(Record(v), migrations[i]);
    }
  }

  lemma {:induction false} StartupMembers(base: seq<string>, migrations: seq<Migration>, db: Db, a: Action)
    ensures a in StartupScript(base, migrations, db) <==> (a.Exec? && a.stmt in base) || PendingHas(migrations, db.versions, a)
  {
    var v0 := MaxVersion(db.versions);
    MaxVersionUpper(db.versions);
    ScriptMembers(migrations, v0, a);
    forall i | 0 <= i < |migrations|
      ensures Newer(migrations[i], db.versions) <==> migrations[i].version > v0
    {
    }
    hide MaxVersion, Newer, Script, Belongs;
    assert a in Execs(base) <==> a.Exec? && a.stmt in base by {
      assert forall i :: 0 <= i < |base| ==> Execs(base)[i] == Exec(base[i]) && base[i] in base;
    }
  }

  lemma {:induction false} AddedBy(meaning: Meaning, base: seq<string>, migrations: seq<Migration>, versions: seq<nat>,
                                   script: seq<Action>, x: string)
    requires forall a :: a in script <==> ((a.Exec? && a.stmt in base) || PendingHas(migrations, versions, a))
    ensures ScriptAdds(meaning, script, x) <==> BaseAdds(meaning, base, x) || PendingAdds(meaning, migrations, versions, x)
  {
    hide Newer, Split;
    if ScriptAdds(meaning, script, x) {
      var a :| a in script && Adds(meaning, a, x);
      if a.stmt !in base {
        var i :| 0 <= i < |migrations| && Newer(migrations[i], versions) && Belongs(a, migrations[i]);
        assert a.stmt in Split(migrations[i].sql);
      }
    }
    forall stmt | stmt in base && meaning(stmt).adds == x
      ensures ScriptAdds(meaning, script, x)
    {
      assert Exec(stmt) in script && Adds(meaning, Exec(stmt), x);
    }
    forall i, stmt | 0 <= i < |migrations| && Newer(migrations[i], versions) && stmt in Split(migrations[i].sql)
                     && meaning(stmt).adds == x
      ensures ScriptAdds(meaning, script, x)
    {
      assert Belongs(Exec(stmt), migrations[i]);
      assert Exec(stmt) in script && Adds(meaning, Exec(stmt), x);
    }
  }
}
