/** The two migrations the repository ships: a file of tables that can be replayed, a file of indexes that cannot. */
module ShippedMigrations {
  import opened Bank
  import opened Migrations

  type Schema = set<string>

  datatype Ddl = CreateTableIfNotExists(name: string) | CreateIndex(name: string)

  /** A plain CREATE INDEX fails if the index is there; the other form does nothing then. */
  function Ddls(): Exec<set<string>, Ddl>
  {
    (schema: set<string>, d: Ddl) =>
      if d.CreateIndex? && d.name in schema then None else Some(schema + {d.name})
  }

  function Names(statements: seq<Ddl>): set<string>
  {
    set d | d in statements :: d.name
  }

  lemma {:induction false} TablesOnly(schema: set<string>, statements: seq<Ddl>)
    requires forall d :: d in statements ==> d.CreateTableIfNotExists?
    ensures ExecAll(Ddls(), schema, statements) == Some(schema + Names(statements))
    decreases |statements|
  {
    if statements != [] {
      TablesOnly(schema + {statements[0].name}, statements[1..]);
      assert statements == [statements[0]] + statements[1..];
      assert schema + {statements[0].name} + Names(statements[1..]) == schema + Names(statements);
    } else {
      assert schema + Names(statements) == schema;
    }
  }

  /** A file of CREATE TABLE IF NOT EXISTS statements, like the first migration, is restartable. */
  lemma TableFileRestarts(statements: seq<Ddl>)
    requires forall d :: d in statements ==> d.CreateTableIfNotExists?
    ensures Restartable(Ddls(), statements)
  {
    forall schema: set<string>, n: nat | n <= |statements|
      ensures ExecAll(Ddls(), schema, statements[..n]).Some?
      ensures ExecAll(Ddls(), ExecAll(Ddls(), schema, statements[..n]).value, statements) ==
          ExecAll(Ddls(), schema, statements)
    {
      TablesOnly(schema, statements[..n]);
      TablesOnly(schema + Names(statements[..n]), statements);
      TablesOnly(schema, statements);
      assert schema + Names(statements[..n]) + Names(statements) == schema + Names(statements);
    }
  }

  lemma NamesOfFirst(schema: set<string>, statements: seq<Ddl>, n: nat)
    requires 0 < n <= |statements|
    ensures schema + Names(statements[..n]) == schema + {statements[0].name} + Names(statements[1..][..n - 1])
  {
    assert statements[..n] == [statements[0]] + statements[1..][..n - 1];
  }

  /** CREATE INDEX statements only, with names new to the schema and to each other. */
  ghost predicate NewIndexes(schema: set<string>, statements: seq<Ddl>)
  {
    && (forall d :: d in statements ==> d.CreateIndex? && d.name !in schema)
    && (forall i, j :: 0 <= i < j < |statements| ==> statements[i].name != statements[j].name)
  }

  lemma FirstIndex(schema: set<string>, statements: seq<Ddl>)
    requires NewIndexes(schema, statements) && statements != []
    ensures Ddls()(schema, statements[0]) == Some(schema + {statements[0].name})
    ensures NewIndexes(schema + {statements[0].name}, statements[1..])
  {
    assert statements[0] in statements;
  }

  lemma {:induction false} IndexesExec(schema: set<string>, statements: seq<Ddl>, kill: nat)
    requires NewIndexes(schema, statements)
    ensures var (s, left, ok) := ExecSome(Ddls(), schema, statements, kill);
            && s == schema + Names(statements[..if kill < |statements| then kill else |statements|])
            && left == (if kill < |statements| then 0 else kill - |statements|)
            && (ok <==> kill >= |statements|)
    decreases |statements|
  {
    if statements == [] || kill == 0 {
      assert schema + Names(statements[..0]) == schema;
    } else {
      FirstIndex(schema, statements);
      NamesOfFirst(schema, statements, if kill < |statements| then kill else |statements|);
      hide NewIndexes, Names, Ddls;
      IndexesExec(schema + {statements[0].name}, statements[1..], kill - 1);
    }
  }

  // ----- runs of a list of files -----

  lemma {:induction false} FirstRun(files: seq<File<Ddl>>, w: World<Schema>, kills: seq<nat>)
    requires kills != []
    ensures Runs(Ddls(), files, w, kills)
         == Runs(Ddls(), files, RunMigrations(Ddls(), files, w, kills[0]).world, kills[1..])
    decreases |kills|
  {
    if |kills| > 1 {
      FirstRun(files, w, kills[..|kills| - 1]);
      assert kills[..|kills| - 1][1..] == kills[1..][..|kills| - 2];
    } else {
      assert kills[..0] == [] && kills[1..] == [];
    }
  }

  lemma {:induction false} NothingLeft(files: seq<File<Ddl>>, w: World<Schema>, kills: seq<nat>)
    requires forall f :: f in files ==> f.version in AppliedSet(w.applied)
    ensures Runs(Ddls(), files, w, kills) == w
    decreases |kills|
  {
    if kills != [] {
      NothingLeft(files, w, kills[..|kills| - 1]);
      AllDone(Ddls(), files, AppliedSet(w.applied), w, kills[|kills| - 1], 0);
    }
  }

  lemma {:induction false} StopsThere(files: seq<File<Ddl>>, i: nat, done: set<string>, w: World<Schema>, kill: nat,
                                      count: nat)
    requires i < |files| && files[i].version !in done && forall j :: 0 <= j < i ==> files[j].version in done
    requires files[i].statements != [] && files[i].statements[0].CreateIndex?
    requires files[i].statements[0].name in w.schema
    ensures var r := Run(Ddls(), files, done, w, kill, count); !r.finished && r.world == w
  {
    if i > 0 { StopsThere(files[1..], i - 1, done, w, kill, count); }
  }

  /**
   * Once the first CREATE INDEX of an unrecorded file has run, with every file before it recorded, no number of later
   * runs gets past it or changes anything, whatever files follow.
   */
  lemma {:induction false} IndexFileStuck(files: seq<File<Ddl>>, i: nat, w: World<Schema>, kills: seq<nat>, kill: nat)
    requires i < |files| && files[i].version !in w.applied
    requires forall j :: 0 <= j < i ==> files[j].version in w.applied
    requires files[i].statements != [] && files[i].statements[0].CreateIndex?
    requires files[i].statements[0].name in w.schema
    ensures Runs(Ddls(), files, w, kills) == w
    ensures !RunMigrations(Ddls(), files, w, kill).finished && RunMigrations(Ddls(), files, w, kill).world == w
    decreases |kills|
  {
    StopsThere(files, i, AppliedSet(w.applied), w, kill, 0);
    if kills != [] { IndexFileStuck(files, i, w, kills[..|kills| - 1], kills[|kills| - 1]); }
  }

  // ----- the shipped pair -----

  /** Tables first; then indexes with names new to the schema and to each other. Neither file recorded yet. */
  ghost predicate Shipped(g: File<Ddl>, f: File<Ddl>, w: World<Schema>)
  {
    && (forall d :: d in g.statements ==> d.CreateTableIfNotExists?)
    && f.statements != [] && NewIndexes(w.schema + Names(g.statements), f.statements)
    && g.version != f.version && g.version !in w.applied && f.version !in w.applied
  }

  /** The tables are there and recorded, nothing of the index file has run. */
  ghost predicate TablesDone(g: File<Ddl>, f: File<Ddl>, w: World<Schema>)
  {
    f.statements != [] && NewIndexes(w.schema, f.statements) && g.version in w.applied && f.version !in w.applied
  }

  /** What the run that records the tables, and each run after it, can still spend on the index file. */
  function IndexCalls(tables: nat, kills: seq<nat>): seq<nat>
  {
    if kills == [] then []
    else if kills[0] <= tables then IndexCalls(tables, kills[1..])
    else [kills[0] - tables - 1] + kills[1..]
  }

  /** The first positive number, or 0 if there is none. */
  function FirstPositive(s: seq<nat>): nat
  {
    if s == [] then 0 else if s[0] > 0 then s[0] else FirstPositive(s[1..])
  }

  /** A run with only the index file left. */
  lemma LastFile(f: File<Ddl>, done: set<string>, w: World<Schema>, k: nat, count: nat)
    requires f.version !in done
    ensures var (s, left, ok) := ExecSome(Ddls(), w.schema, f.statements, k);
            Run(Ddls(), [f], done, w, k, count) ==
            if !ok || left == 0 then Report(World(s, w.applied), left, count, false)
            else Report(World(s, w.applied + [f.version]), left - 1, count + 1, true)
  {
    assert [f][1..] == [];
  }

  /** With the tables recorded, a run spends its calls on the index file alone. */
  lemma IndexRun(g: File<Ddl>, f: File<Ddl>, w: World<Schema>, k: nat)
    requires f.version !in w.applied && g.version in w.applied
    ensures RunMigrations(Ddls(), [g, f], w, k) == Run(Ddls(), [f], AppliedSet(w.applied), w, k, 0)
  {
    assert [g, f][1..] == [f];
  }

  lemma {:induction false} IndexesResume(g: File<Ddl>, f: File<Ddl>, w: World<Schema>, kills: seq<nat>, again: nat)
    requires TablesDone(g, f, w) && again > |f.statements|
    ensures var m := FirstPositive(kills);
            RunMigrations(Ddls(), [g, f], Runs(Ddls(), [g, f], w, kills), again).finished
            <==> m == 0 || m > |f.statements|
    decreases |kills|
  {
    var n := |f.statements|;
    var k := if kills == [] then again else kills[0];
    IndexRun(g, f, w, k);
    LastFile(f, AppliedSet(w.applied), w, k, 0);
    IndexesExec(w.schema, f.statements, k);
    if kills != [] {
      var w' := RunMigrations(Ddls(), [g, f], w, k).world;
      FirstRun([g, f], w, kills);
      if k == 0 {
        assert f.statements[..0] == [] && w' == w;
        IndexesResume(g, f, w, kills[1..], again);
      } else if k <= n {
        assert f.statements[0] in f.statements[..if k < n then k else n];
        assert f.statements[0] in f.statements;
        IndexFileStuck([g, f], 1, w', kills[1..], again);
      } else {
        assert f.version in w'.applied && g.version in w'.applied;
        NothingLeft([g, f], w', kills[1..]);
        AllDone(Ddls(), [g, f], AppliedSet(w'.applied), w', again, 0);
      }
    }
  }

  /** A run that starts with the tables: cut short among them it can be taken up again, else it goes on from there. */
  lemma TablesRun(g: File<Ddl>, f: File<Ddl>, w: World<Schema>, k: nat)
    requires Shipped(g, f, w)
    ensures var r := RunMigrations(Ddls(), [g, f], w, k);
            if k <= |g.statements| then Shipped(g, f, r.world) && !r.finished
            else
              var w' := World(w.schema + Names(g.statements), w.applied + [g.version]);
              var r' := RunMigrations(Ddls(), [g, f], w', k - |g.statements| - 1);
              TablesDone(g, f, w') && r.world == r'.world && r.finished == r'.finished
  {
    TablesOnly(w.schema, g.statements);
    ExecFinishes(Ddls(), w.schema, g.statements, k);
    if k <= |g.statements| {
      var s := ExecSome(Ddls(), w.schema, g.statements, k).0;
      TableFileRestarts(g.statements);
      PartialFile(Ddls(), w.schema, g.statements, k);
      TablesOnly(s, g.statements);
    } else {
      var w' := World(w.schema + Names(g.statements), w.applied + [g.version]);
      IndexRun(g, f, w', k - |g.statements| - 1);
      LastFile(f, AppliedSet(w.applied), w', k - |g.statements| - 1, 1);
      LastFile(f, AppliedSet(w'.applied), w', k - |g.statements| - 1, 0);
      assert [g, f][1..] == [f];
    }
  }

  /**
   * Exactly which interruptions of the shipped pair can be resumed, for any number of runs killed anywhere: leave out
   * the runs killed among the tables; of what the next run spends on the index file and what each later one is given,
   * the first positive amount must get past the whole file and its record. A single run killed after k calls can thus
   * be resumed exactly when it did not start on the indexes or finished them.
   */
  lemma {:induction false} ShippedFilesResume(g: File<Ddl>, f: File<Ddl>, w: World<Schema>, kills: seq<nat>,
                                              again: nat)
    requires Shipped(g, f, w) && again >= |g.statements| + |f.statements| + 2
    ensures var m := FirstPositive(IndexCalls(|g.statements|, kills));
            RunMigrations(Ddls(), [g, f], Runs(Ddls(), [g, f], w, kills), again).finished
            <==> m == 0 || m > |f.statements|
    decreases |kills|
  {
    var tables := |g.statements|;
    var k := if kills == [] then again else kills[0];
    var w' := World(w.schema + Names(g.statements), w.applied + [g.version]);
    TablesRun(g, f, w, k);
    if kills == [] {
      IndexesResume(g, f, w', [], again - tables - 1);
    } else {
      FirstRun([g, f], w, kills);
      if k <= tables {
        ShippedFilesResume(g, f, RunMigrations(Ddls(), [g, f], w, k).world, kills[1..], again);
      } else {
        var spent := [k - tables - 1] + kills[1..];
        FirstRun([g, f], w', spent);
        IndexesResume(g, f, w', spent, again);
      }
    }
  }

  lemma OneInterruption(g: File<Ddl>, f: File<Ddl>, w: World<Schema>, k: nat, again: nat)
    requires Shipped(g, f, w) && again >= |g.statements| + |f.statements| + 2
    ensures RunMigrations(Ddls(), [g, f], RunMigrations(Ddls(), [g, f], w, k).world, again).finished
       <==> k <= |g.statements| + 1 || k > |g.statements| + 1 + |f.statements|
  {
    ShippedFilesResume(g, f, w, [k], again);
    assert [k][..0] == [];
    assert Runs(Ddls(), [g, f], w, []) == w;
  }
}
