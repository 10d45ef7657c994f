/** The migration runner: files applied in order, each recorded only after its last statement. */
module Migrations {
  import opened Bank
  import Relational

  /** A file: its version and its statements in order. */
  datatype File<St> = File(version: string, statements: seq<St>)

  /** What auto-commit has made permanent: the schema, and the versions recorded so far. */
  datatype World<S> = World(schema: S, applied: seq<string>)

  /** How a run went; `left` counts the server calls it could still have made before being killed. */
  datatype Report<S> = Report(world: World<S>, left: nat, count: nat, finished: bool)

  type Exec<!S, !St> = (S, St) -> Option<S>

  function AppliedSet(applied: seq<string>): set<string>
  {
    set v | v in applied
  }

  // ----- one run -----

  /** Statements until one fails or the process is killed. */
  function ExecSome<S, St>(exec: Exec<S, St>, s: S, statements: seq<St>, kill: nat): (S, nat, bool)
    decreases |statements|
  {
    if statements == [] then (s, kill, true)
    else if kill == 0 then (s, 0, false)
    else
      match exec(s, statements[0])
      case None => (s, kill - 1, false)
      case Some(s') => ExecSome(exec, s', statements[1..], kill - 1)
  }

  function Run<S, St>(exec: Exec<S, St>, files: seq<File<St>>, done: set<string>, w: World<S>, kill: nat,
                      count: nat): Report<S>
    decreases |files|
  {
    if files == [] then Report(w, kill, count, true)
    else if files[0].version in done then Run(exec, files[1..], done, w, kill, count)
    else
      var (s, left, ok) := ExecSome(exec, w.schema, files[0].statements, kill);
      if !ok || left == 0 then Report(World(s, w.applied), left, count, false)
      else Run(exec, files[1..], done, World(s, w.applied + [files[0].version]), left - 1, count + 1)
  }

  /** A run starts by reading which versions are recorded. */
  function RunMigrations<S, St>(exec: Exec<S, St>, files: seq<File<St>>, w: World<S>, kill: nat): Report<S>
  {
    Run(exec, files, AppliedSet(w.applied), w, kill, 0)
  }

  class Database<S(0)> {
    var schema: S
    var applied: seq<string>

    constructor (schema: S, applied: seq<string>)
      ensures this.schema == schema && this.applied == applied
    {
      this.schema, this.applied := schema, applied;
    }

    function Contents(): World<S>
      reads this
    {
      World(schema, applied)
    }

    /** The loop over files; every statement is permanent as soon as it has run, whatever happens next. */
    method Migrate<St>(exec: Exec<S, St>, files: seq<File<St>>, kill: nat)
      returns (count: nat, finished: bool, left: nat)
      modifies this
      ensures Report(Contents(), left, count, finished) == RunMigrations(exec, files, old(Contents()), kill)
    {
      var done := AppliedSet(applied);
      count, left := 0, kill;
      for i := 0 to |files|
        invariant Run(exec, files, done, old(Contents()), kill, 0) ==
            Run(exec, files[i..], done, Contents(), left, count)
      {
        assert files[i..][1..] == files[i + 1..];
        if files[i].version in done {
          continue;
        }
        ghost var start, room, recorded := schema, left, applied;
        for j := 0 to |files[i].statements|
          invariant applied == recorded
          invariant ExecSome(exec, start, files[i].statements, room) ==
              ExecSome(exec, schema, files[i].statements[j..], left)
        {
          assert files[i].statements[j..][1..] == files[i].statements[j + 1..];
          if left == 0 {
            finished := false;
            return;
          }
          left := left - 1;
          match exec(schema, files[i].statements[j])
          case None =>
            finished := false;
            return;
          case Some(s) =>
            schema := s;
        }
        if left == 0 {
          finished := false;
          return;
        }
        left := left - 1;
        applied := applied + [files[i].version];
        count := count + 1;
      }
      finished := true;
    }
  }

  // ----- what a run that is not interrupted would end with -----

  function ExecAll<S, St>(exec: Exec<S, St>, s: S, statements: seq<St>): Option<S>
    decreases |statements|
  {
    if statements == [] then Some(s)
    else
      match exec(s, statements[0])
      case None => None
      case Some(s') => ExecAll(exec, s', statements[1..])
  }

  /** Every unrecorded file, in full, in order. */
  function Final<S, St>(exec: Exec<S, St>, files: seq<File<St>>, done: set<string>, s: S): Option<S>
    decreases |files|
  {
    if files == [] then Some(s)
    else if files[0].version in done then Final(exec, files[1..], done, s)
    else
      match ExecAll(exec, s, files[0].statements)
      case None => None
      case Some(s') => Final(exec, files[1..], done, s')
  }

  /** Replaying the file from the top after any part of it has run is the same as running it once. */
  ghost predicate Restartable<S(!new), St>(exec: Exec<S, St>, statements: seq<St>)
  {
    forall s: S, n: nat :: n <= |statements| && ExecAll(exec, s, statements[..n]).Some? ==>
      ExecAll(exec, ExecAll(exec, s, statements[..n]).value, statements) == ExecAll(exec, s, statements)
  }

  ghost predicate DistinctVersions<St>(files: seq<File<St>>)
  {
    forall i, j :: 0 <= i < j < |files| ==> files[i].version != files[j].version
  }

  // ----- a run, whole or cut short, does not change where things are heading -----

  lemma {:induction false} PartIsAPrefix<S, St>(exec: Exec<S, St>, s: S, statements: seq<St>, kill: nat)
    returns (n: nat)
    ensures n <= |statements|
    ensures var (s', left, ok) := ExecSome(exec, s, statements, kill);
            && ExecAll(exec, s, statements[..n]) == Some(s')
            && (ok ==> n == |statements|)
    decreases |statements|
  {
    if statements == [] || kill == 0 || exec(s, statements[0]) == None {
      n := 0;
    } else {
      var m := PartIsAPrefix(exec, exec(s, statements[0]).value, statements[1..], kill - 1);
      n := m + 1;
      assert statements[..n][1..] == statements[1..][..m];
    }
  }

  lemma {:induction false} FinalSame<S, St>(exec: Exec<S, St>, files: seq<File<St>>, d: set<string>, e: set<string>,
                                            s: S)
    requires forall f :: f in files ==> (f.version in d <==> f.version in e)
    ensures Final(exec, files, d, s) == Final(exec, files, e, s)
    decreases |files|
  {
    if files != [] {
      assert files[0] in files && forall f :: f in files[1..] ==> f in files;
      if files[0].version in d {
        FinalSame(exec, files[1..], d, e, s);
      } else {
        match ExecAll(exec, s, files[0].statements)
        case None =>
        case Some(s') => FinalSame(exec, files[1..], d, e, s');
      }
    }
  }

  /** A file whose run was cut short will be replayed from its top, and that ends where it would have ended. */
  lemma PartialFile<S(!new), St>(exec: Exec<S, St>, s: S, statements: seq<St>, kill: nat)
    requires Restartable(exec, statements)
    ensures ExecAll(exec, ExecSome(exec, s, statements, kill).0, statements) == ExecAll(exec, s, statements)
  {
    var n := PartIsAPrefix(exec, s, statements, kill);
  }

  /** What a run has recorded: what was there, plus unrecorded files of its list, each once. */
  lemma {:induction false} RunRecords<S, St>(exec: Exec<S, St>, files: seq<File<St>>, done: set<string>, w: World<S>,
                                             kill: nat, count: nat)
    requires DistinctVersions(files)
    requires forall f :: f in files ==> (f.version in done <==> f.version in w.applied)
    requires Relational.Unique(w.applied)
    ensures var a := Run(exec, files, done, w, kill, count).world.applied;
            && w.applied <= a
            && (forall v :: v in a ==> v in w.applied || exists f :: f in files && f.version == v)
            && Relational.Unique(a)
    decreases |files|
  {
    if files != [] {
      var f := files[0];
      assert f in files && forall g :: g in files <==> g == f || g in files[1..];
      assert forall g :: g in files[1..] ==> g.version != f.version;
      if f.version in done {
        RunRecords(exec, files[1..], done, w, kill, count);
      } else {
        var (s, left, ok) := ExecSome(exec, w.schema, f.statements, kill);
        if ok && left > 0 {
          RunRecords(exec, files[1..], done, World(s, w.applied + [f.version]), left - 1, count + 1);
        }
      }
    }
  }

  /** The versions still to be recorded, in the order of the files. */
  function Pending<St>(files: seq<File<St>>, done: set<string>): seq<string>
  {
    if files == [] then []
    else (if files[0].version in done then [] else [files[0].version]) + Pending(files[1..], done)
  }

  lemma NextVersion(applied: seq<string>, v: string, rest: seq<string>, n: nat)
    requires n <= |rest|
    ensures (applied + [v]) + rest[..n] == applied + ([v] + rest)[..n + 1]
  {
  }

  /** A run records the pending versions in order, as far as it gets, and its count is how many it recorded. */
  lemma {:induction false} RecordsInOrder<S, St>(exec: Exec<S, St>, files: seq<File<St>>, done: set<string>,
                                                 w: World<S>, kill: nat, count: nat) returns (m: nat)
    ensures m <= |Pending(files, done)|
    ensures var r := Run(exec, files, done, w, kill, count);
            && r.world.applied == w.applied + Pending(files, done)[..m]
            && r.count == count + m
            && (r.finished <==> m == |Pending(files, done)|)
    decreases |files|
  {
    m := 0;
    if files != [] {
      var f := files[0];
      if f.version in done {
        m := RecordsInOrder(exec, files[1..], done, w, kill, count);
      } else {
        var (s, left, ok) := ExecSome(exec, w.schema, f.statements, kill);
        if ok && left > 0 {
          var w' := World(s, w.applied + [f.version]);
          var n := RecordsInOrder(exec, files[1..], done, w', left - 1, count + 1);
          m := n + 1;
          NextVersion(w.applied, f.version, Pending(files[1..], done), n);
        }
      }
    }
  }

  lemma {:induction false} FinishedRecordsAll<S, St>(exec: Exec<S, St>, files: seq<File<St>>, done: set<string>,
                                                     w: World<S>, kill: nat, count: nat)
    requires DistinctVersions(files) && Relational.Unique(w.applied)
    requires forall f :: f in files ==> (f.version in done <==> f.version in w.applied)
    requires Run(exec, files, done, w, kill, count).finished
    ensures forall f :: f in files ==> f.version in Run(exec, files, done, w, kill, count).world.applied
    decreases |files|
  {
    if files != [] {
      var f := files[0];
      assert f in files && forall g :: g in files <==> g == f || g in files[1..];
      assert forall g :: g in files[1..] ==> g.version != f.version;
      var (s, left, ok) := ExecSome(exec, w.schema, f.statements, kill);
      var w', left' := if f.version in done then w else World(s, w.applied + [f.version]),
                       if f.version in done || left == 0 then kill else left - 1;
      var count' := if f.version in done then count else count + 1;
      FinishedRecordsAll(exec, files[1..], done, w', left', count');
      RunRecords(exec, files[1..], done, w', left', count');
      assert f.version in w'.applied;
    }
  }

  /** Interrupted or not, a run leaves the final schema it is heading for where it was. */
  lemma {:induction false} RunKeepsFinal<S(!new), St>(exec: Exec<S, St>, files: seq<File<St>>, done: set<string>,
                                                      w: World<S>, kill: nat, count: nat)
    requires DistinctVersions(files) && forall f :: f in files ==> Restartable(exec, f.statements)
    requires forall f :: f in files ==> (f.version in done <==> f.version in w.applied)
    requires Relational.Unique(w.applied)
    ensures var r := Run(exec, files, done, w, kill, count);
            && Final(exec, files, AppliedSet(r.world.applied), r.world.schema) == Final(exec, files, done, w.schema)
            && (r.finished ==> Final(exec, files, done, w.schema) == Some(r.world.schema))
    decreases |files|
  {
    if files != [] {
      var f, rest := files[0], files[1..];
      var r := Run(exec, files, done, w, kill, count);
      assert f in files && forall g :: g in files <==> g == f || g in rest;
      assert forall g :: g in rest ==> g.version != f.version;
      RunRecords(exec, files, done, w, kill, count);
      if f.version in done {
        RunKeepsFinal(exec, rest, done, w, kill, count);
        assert f.version in r.world.applied;
      } else {
        var (s, left, ok) := ExecSome(exec, w.schema, f.statements, kill);
        if ok && left > 0 {
          var w' := World(s, w.applied + [f.version]);
          RunKeepsFinal(exec, rest, done, w', left - 1, count + 1);
          var n := PartIsAPrefix(exec, w.schema, f.statements, kill);
          assert f.statements[..n] == f.statements;
          RunRecords(exec, rest, done, w', left - 1, count + 1);
          assert f.version in w'.applied;
        } else {
          PartialFile(exec, w.schema, f.statements, kill);
          FinalSame(exec, files, AppliedSet(w.applied), done, s);
        }
      }
    }
  }

  // ----- any number of runs -----

  ghost predicate Recorded<S, St>(files: seq<File<St>>, w: World<S>)
  {
    DistinctVersions(files) && Relational.Unique(w.applied)
  }

  /** Runs one after another, each killed after its own number of server calls. */
  function Runs<S, St>(exec: Exec<S, St>, files: seq<File<St>>, w: World<S>, kills: seq<nat>): World<S>
  {
    if kills == [] then w
    else RunMigrations(exec, files, Runs(exec, files, w, kills[..|kills| - 1]), kills[|kills| - 1]).world
  }

  lemma {:induction false} RunsKeep<S(!new), St>(exec: Exec<S, St>, files: seq<File<St>>, w: World<S>, kills: seq<nat>)
    requires Recorded(files, w)
    ensures Recorded(files, Runs(exec, files, w, kills))
    ensures (forall f :: f in files ==> Restartable(exec, f.statements)) ==>
              var w' := Runs(exec, files, w, kills);
              Final(exec, files, AppliedSet(w'.applied), w'.schema) ==
                  Final(exec, files, AppliedSet(w.applied), w.schema)
    decreases |kills|
  {
    if kills != [] {
      var before, kill := Runs(exec, files, w, kills[..|kills| - 1]), kills[|kills| - 1];
      RunsKeep(exec, files, w, kills[..|kills| - 1]);
      RunRecords(exec, files, AppliedSet(before.applied), before, kill, 0);
      if forall f :: f in files ==> Restartable(exec, f.statements) {
        RunKeepsFinal(exec, files, AppliedSet(before.applied), before, kill, 0);
      }
    }
  }

  /**
   * Recorded once: after any sequence of interrupted runs and then a finished one, every file's version is recorded
   * and none twice, and one more run applies nothing and changes nothing.
   */
  lemma RecordedOnce<S(!new), St>(exec: Exec<S, St>, files: seq<File<St>>, w: World<S>, kills: seq<nat>, kill: nat,
                                  again: nat)
    requires Recorded(files, w)
    requires RunMigrations(exec, files, Runs(exec, files, w, kills), kill).finished
    ensures var w' := RunMigrations(exec, files, Runs(exec, files, w, kills), kill).world;
            && (forall f :: f in files ==> multiset(w'.applied)[f.version] == 1)
            && RunMigrations(exec, files, w', again) == Report(w', again, 0, true)
  {
    var before := Runs(exec, files, w, kills);
    RunsKeep(exec, files, w, kills);
    RunRecords(exec, files, AppliedSet(before.applied), before, kill, 0);
    FinishedRecordsAll(exec, files, AppliedSet(before.applied), before, kill, 0);
    var w' := RunMigrations(exec, files, before, kill).world;
    forall f | f in files ensures multiset(w'.applied)[f.version] == 1 {
      Relational.UniqueCount(w'.applied, f.version);
    }
    AllDone(exec, files, AppliedSet(w'.applied), w', again, 0);
  }

  lemma {:induction false} AllDone<S, St>(exec: Exec<S, St>, files: seq<File<St>>, done: set<string>, w: World<S>,
                                          kill: nat, count: nat)
    requires forall f :: f in files ==> f.version in done
    ensures Run(exec, files, done, w, kill, count) == Report(w, kill, count, true)
    decreases |files|
  {
    if files != [] {
      assert files[0] in files && forall f :: f in files[1..] ==> f in files;
      AllDone(exec, files[1..], done, w, kill, count);
    }
  }

  // ----- which runs finish -----

  /** Server calls a run makes that is not interrupted: every statement of every unrecorded file, and its record. */
  function Cost<St>(files: seq<File<St>>, done: set<string>): nat
    decreases |files|
  {
    if files == [] then 0
    else (if files[0].version in done then 0 else |files[0].statements| + 1) + Cost(files[1..], done)
  }

  lemma {:induction false} ExecFinishes<S, St>(exec: Exec<S, St>, s: S, statements: seq<St>, kill: nat)
    ensures var (s', left, ok) := ExecSome(exec, s, statements, kill);
            && (ok <==> ExecAll(exec, s, statements).Some? && kill >= |statements|)
            && (ok ==> ExecAll(exec, s, statements) == Some(s') && left == kill - |statements|)
    decreases |statements|
  {
    if statements != [] && kill > 0 {
      match exec(s, statements[0])
      case None =>
      case Some(s') => ExecFinishes(exec, s', statements[1..], kill - 1);
    }
  }

  /** A run finishes exactly when no statement fails on the way and it is given all the calls that the files cost. */
  lemma {:induction false} FinishesExactly<S, St>(exec: Exec<S, St>, files: seq<File<St>>, done: set<string>,
                                                  w: World<S>, kill: nat, count: nat)
    ensures var r := Run(exec, files, done, w, kill, count);
            && (r.finished <==> Final(exec, files, done, w.schema).Some? && kill >= Cost(files, done))
            && (r.finished ==> Final(exec, files, done, w.schema) == Some(r.world.schema))
    decreases |files|
  {
    if files != [] {
      if files[0].version in done {
        FinishesExactly(exec, files[1..], done, w, kill, count);
      } else {
        ExecFinishes(exec, w.schema, files[0].statements, kill);
        var (s, left, ok) := ExecSome(exec, w.schema, files[0].statements, kill);
        if ok && left > 0 {
          FinishesExactly(exec, files[1..], done, World(s, w.applied + [files[0].version]), left - 1, count + 1);
        }
      }
    }
  }

  lemma {:induction false} CostShrinks<St>(files: seq<File<St>>, done: set<string>, more: set<string>)
    requires done <= more
    ensures Cost(files, more) <= Cost(files, done)
  {
    if files != [] { CostShrinks(files[1..], done, more); }
  }

  lemma {:induction false} RunsApplyMore<S, St>(exec: Exec<S, St>, files: seq<File<St>>, w: World<S>, kills: seq<nat>)
    requires Recorded(files, w)
    ensures w.applied <= Runs(exec, files, w, kills).applied && Recorded(files, Runs(exec, files, w, kills))
    decreases |kills|
  {
    if kills != [] {
      var before := Runs(exec, files, w, kills[..|kills| - 1]);
      RunsApplyMore(exec, files, w, kills[..|kills| - 1]);
      RunRecords(exec, files, AppliedSet(before.applied), before, kills[|kills| - 1], 0);
    }
  }

  /**
   * Resume: if every file is restartable and no statement of a single uninterrupted run would fail, then after any
   * sequence of runs cut short anywhere the next run finishes exactly when it is given the calls still to be made,
   * which are never more than at the start, and then the schema is that of the single uninterrupted run.
   */
  lemma ResumeGivesTheSameSchema<S(!new), St>(exec: Exec<S, St>, files: seq<File<St>>, w: World<S>, kills: seq<nat>,
                                              kill: nat)
    requires Recorded(files, w) && forall f :: f in files ==> Restartable(exec, f.statements)
    requires RunMigrations(exec, files, w, Cost(files, AppliedSet(w.applied))).finished
    ensures var whole := RunMigrations(exec, files, w, Cost(files, AppliedSet(w.applied)));
            var before := Runs(exec, files, w, kills);
            var r := RunMigrations(exec, files, before, kill);
            && (r.finished <==> kill >= Cost(files, AppliedSet(before.applied)))
            && Cost(files, AppliedSet(before.applied)) <= Cost(files, AppliedSet(w.applied))
            && (r.finished ==> r.world.schema == whole.world.schema)
  {
    var before := Runs(exec, files, w, kills);
    RunsKeep(exec, files, w, kills);
    RunsApplyMore(exec, files, w, kills);
    CostShrinks(files, AppliedSet(w.applied), AppliedSet(before.applied));
    FinishesExactly(exec, files, AppliedSet(before.applied), before, kill, 0);
    FinishesExactly(exec, files, AppliedSet(w.applied), w, Cost(files, AppliedSet(w.applied)), 0);
  }
}
