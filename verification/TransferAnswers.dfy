/** What callers get when ids are fresh: every answer but a driver error is the serial one. */
module TransferAnswers {
  import opened Bank
  import opened TransferMachine
  import opened TransferInvariant
  import opened TransferSafety
  import opened TransferLiveness

  /** Transaction ids are fresh: new to the ledger, and used by one call only. */
  ghost predicate FreshIds(db: Db, work: seq<seq<Job>>)
  {
    && (forall c, i :: 0 <= c < |work| && 0 <= i < |work[c]| ==> work[c][i].txn !in db.ledger)
    && (forall c, i, d, j :: 0 <= c < |work| && 0 <= i < |work[c]| && 0 <= d < |work| && 0 <= j < |work[d]| ==>
          work[c][i].txn == work[d][j].txn ==> c == d && i == j)
  }

  /** No call has ended, or is about to end, in outcome o. */
  ghost predicate Never(s: State, o: Outcome)
  {
    && (forall c :: 0 <= c < |s.clients| ==> s.clients[c].phase != Raised(o) && s.clients[c].phase != Ended(o))
    && (forall i :: 0 <= i < |s.log| ==> s.log[i].outcome != o)
  }

  lemma {:induction false} CallOf(log: seq<Entry>, i: nat) returns (p: nat)
    requires i < |log|
    ensures p < |Calls(log, log[i].client)| && Calls(log, log[i].client)[p] == log[i]
  {
    if i == |log| - 1 {
      p := |Calls(log, log[i].client)| - 1;
    } else {
      p := CallOf(log[..|log| - 1], i);
    }
  }

  lemma PastCall(db: Db, pool: nat, work: seq<seq<Job>>, schedule: seq<Choice>, i: nat) returns (p: nat)
    requires i < |Run(Start(db, pool, work), schedule).log|
    requires Run(Start(db, pool, work), schedule).log[i].client < |work|
    ensures var s := Run(Start(db, pool, work), schedule);
            var d := s.log[i].client;
            p < |Calls(s.log, d)| && p < |work[d]| && work[d][p] == s.log[i].job
  {
    var s := Run(Start(db, pool, work), schedule);
    AnsweredOnce(db, pool, work, schedule);
    hide Run, Start;
    var d := s.log[i].client;
    p := CallOf(s.log, i);
    assert AnswersOk(s.log, s.clients[d], d, work[d]);
    assert Jobs(Calls(s.log, d))[p] == s.log[i].job;
  }

  lemma {:induction false} CallersExist(db: Db, pool: nat, work: seq<seq<Job>>, schedule: seq<Choice>, i: nat)
    requires i < |Run(Start(db, pool, work), schedule).log|
    ensures Run(Start(db, pool, work), schedule).log[i].client < |work|
    decreases |schedule|
  {
    if schedule != [] {
      var s, ch := Run(Start(db, pool, work), schedule[..|schedule| - 1]), schedule[|schedule| - 1];
      AnsweredOnce(db, pool, work, schedule[..|schedule| - 1]);
      hide Start;
      match Step(s, ch)
      case None => CallersExist(db, pool, work, schedule[..|schedule| - 1], i);
      case Some(s') =>
        StepLocal(s, ch, s');
        hide Step;
        if i < |s.log| { CallersExist(db, pool, work, schedule[..|schedule| - 1], i); }
    }
  }

  lemma {:induction false} ReplayIds(db: Db, log: seq<Entry>, t: Key) returns (i: nat)
    requires t in Replay(db, log).ledger && t !in db.ledger
    ensures i < |log| && log[i].job.txn == t
  {
    var e := log[|log| - 1];
    if t == e.job.txn { i := |log| - 1; } else { i := ReplayIds(db, log[..|log| - 1], t); }
  }

  /** With fresh ids a client about to insert its ledger row finds no row with its id, committed or not. */
  lemma InsertFindsNoRow(db: Db, pool: nat, work: seq<seq<Job>>, schedule: seq<Choice>, c: nat)
    requires InRange(db.accounts) && FreshIds(db, work)
    requires var s := Run(Start(db, pool, work), schedule);
             c < |s.clients| && s.clients[c].todo != [] && s.clients[c].phase.Credited?
    ensures var s := Run(Start(db, pool, work), schedule); s.clients[c].todo[0].txn !in s.db.ledger
  {
    var s := Run(Start(db, pool, work), schedule);
    var base, t := Replay(db, s.log), s.clients[c].todo[0].txn;
    RunInv(db, pool, work, schedule);
    NextCall(db, pool, work, schedule, c);
    if t in base.ledger {
      var i := ReplayIds(db, s.log, t);
      CallersExist(db, pool, work, schedule, i);
      var p := PastCall(db, pool, work, schedule, i);
      assert false;
    }
    if t in s.inserts {
      var d := s.inserts[t];
      assert OwnOk(s, base, s.clients[d], d);
      assert Holds(s.inserts, d, t);
      hide Run, Start, FreshIds;
      assert OwnOk(s, base, s.clients[c], c);
      assert d != c && s.clients[d].todo[0].txn == t;
      TwoHolders(db, pool, work, schedule, c, d);
    }
  }

  lemma TwoHolders(db: Db, pool: nat, work: seq<seq<Job>>, schedule: seq<Choice>, c: nat, d: nat)
    requires FreshIds(db, work) && c != d
    requires var s := Run(Start(db, pool, work), schedule);
             && c < |s.clients| && s.clients[c].todo != [] && !s.clients[c].phase.Ended?
             && d < |s.clients| && s.clients[d].todo != [] && !s.clients[d].phase.Ended?
    ensures var s := Run(Start(db, pool, work), schedule); s.clients[c].todo[0].txn != s.clients[d].todo[0].txn
  {
    NextCall(db, pool, work, schedule, c);
    NextCall(db, pool, work, schedule, d);
    hide Run, Start;
  }

  /** Driver errors come from faults only, duplicate ids from inserts that find their row there. */
  lemma AdvanceNever(s: State, c: nat, s': State, o: Outcome)
    requires Never(s, o) && Accident(o) && Step(s, Choice(c, false)) == Some(s')
    requires o == Duplicate && s.clients[c].phase.Credited? && s.clients[c].todo != [] ==>
               s.clients[c].todo[0].txn !in s.db.ledger
    ensures Never(s', o)
  {
    StepShape(s, Choice(c, false), s');
    hide Rollback, Moved, Release, Lookup;
    assert s.clients[c].phase != Raised(o) && s.clients[c].phase != Ended(o);
  }

  lemma FaultNever(s: State, c: nat, s': State)
    requires Never(s, Duplicate) && Step(s, Choice(c, true)) == Some(s')
    ensures Never(s', Duplicate)
  {
    StepShape(s, Choice(c, true), s');
  }

  /** With fresh ids no run, however it fails, ever meets a duplicate ledger id. */
  lemma {:induction false} NeverDuplicate(db: Db, pool: nat, work: seq<seq<Job>>, schedule: seq<Choice>)
    requires InRange(db.accounts) && FreshIds(db, work)
    ensures Never(Run(Start(db, pool, work), schedule), Duplicate)
    decreases |schedule|
  {
    if schedule != [] {
      var shorter, ch := schedule[..|schedule| - 1], schedule[|schedule| - 1];
      var s := Run(Start(db, pool, work), shorter);
      NeverDuplicate(db, pool, work, shorter);
      hide Never, FreshIds, Step;
      match Step(s, ch)
      case None =>
      case Some(s') =>
        StepShape(s, ch, s');
        if ch.fault {
          FaultNever(s, ch.client, s');
        } else {
          if s.clients[ch.client].phase.Credited? && s.clients[ch.client].todo != [] {
            InsertFindsNoRow(db, pool, work, shorter, ch.client);
          }
          AdvanceNever(s, ch.client, s', Duplicate);
        }
    }
  }

  lemma {:induction false} NoFaultNoDriverError(db: Db, pool: nat, work: seq<seq<Job>>, schedule: seq<Choice>)
    requires forall ch :: ch in schedule ==> !ch.fault
    ensures Never(Run(Start(db, pool, work), schedule), DriverError)
    decreases |schedule|
  {
    if schedule != [] {
      var shorter, ch := schedule[..|schedule| - 1], schedule[|schedule| - 1];
      var s := Run(Start(db, pool, work), shorter);
      assert ch in schedule && forall x :: x in shorter ==> x in schedule;
      NoFaultNoDriverError(db, pool, work, shorter);
      hide Never, Step;
      match Step(s, ch)
      case None =>
      case Some(s') => AdvanceNever(s, ch.client, s', DriverError);
    }
  }

  /** Without faults, and with fresh ids, no call of any run is lost to an accident. */
  lemma NoFaultNoAccident(db: Db, pool: nat, work: seq<seq<Job>>, schedule: seq<Choice>)
    requires InRange(db.accounts) && FreshIds(db, work)
    requires forall ch :: ch in schedule ==> !ch.fault
    ensures forall o :: Accident(o) ==> Never(Run(Start(db, pool, work), schedule), o)
  {
    hide Run, Start, Never;
    NeverDuplicate(db, pool, work, schedule);
    NoFaultNoDriverError(db, pool, work, schedule);
  }

  /** Each entry but a driver error is one step of the serial run, in its answer and in its tables. */
  ghost predicate IsSerialRun(db: Db, log: seq<Entry>)
  {
    forall i :: 0 <= i < |log| ==>
      if log[i].outcome == DriverError then Replay(db, log[..i + 1]) == Replay(db, log[..i])
      else Attempt(Replay(db, log[..i]), log[i].job) == (Replay(db, log[..i + 1]), log[i].outcome)
  }

  lemma DecidedIsSerial(db: Db, log: seq<Entry>)
    requires Agrees(db, log) && forall i :: 0 <= i < |log| ==> log[i].outcome != Duplicate
    ensures IsSerialRun(db, log)
  {
    hide Attempt, Replay;
    forall i | 0 <= i < |log|
      ensures if log[i].outcome == DriverError then Replay(db, log[..i + 1]) == Replay(db, log[..i])
              else Attempt(Replay(db, log[..i]), log[i].job) == (Replay(db, log[..i + 1]), log[i].outcome)
    {
      assert log[..i + 1] == log[..i] + [log[i]];
      ReplayAppend(db, log[..i], log[i]);
    }
  }

  /**
   * If ids are fresh, no call fails on account of other clients, whatever faults strike: every entry of the history but
   * a driver error is a step of the serial run, refusals included, and a driver error changes nothing.
   */
  lemma {:induction false} EveryAnswerIsSerial(db: Db, pool: nat, work: seq<seq<Job>>, schedule: seq<Choice>)
    requires InRange(db.accounts) && FreshIds(db, work)
    ensures IsSerialRun(db, Run(Start(db, pool, work), schedule).log)
  {
    hide Start, Agrees, IsSerialRun, FreshIds;
    NeverDuplicate(db, pool, work, schedule);
    Serializability(db, pool, work, schedule);
    DecidedIsSerial(db, Run(Start(db, pool, work), schedule).log);
  }
}
