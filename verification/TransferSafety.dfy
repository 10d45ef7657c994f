/** Safety of every run of the transfer machine: serializability, recovery, money, aborts, refused writes. */
module TransferSafety {
  import opened Sums
  import opened Bank
  import opened TransferMachine
  import opened TransferInvariant

  lemma ExplainedAppend(db: Db, base: Db, s: State, s': State)
    requires base == Replay(db, s.log) && Agrees(db, s.log) && Explained(base, s, s')
    ensures NextBase(base, s, s') == Replay(db, s'.log) && Agrees(db, s'.log)
  {
    if s'.log != s.log {
      var e := s'.log[|s.log|];
      ReplayAppend(db, s.log, e);
      AgreesAppend(db, s.log, e);
    }
  }

  /** Every state of every run satisfies the invariant relative to the serial replay of its own history. */
  lemma {:induction false} RunInv(db: Db, pool: nat, work: seq<seq<Job>>, schedule: seq<Choice>)
    requires InRange(db.accounts)
    ensures var s := Run(Start(db, pool, work), schedule);
            Inv(s, Replay(db, s.log)) && Agrees(db, s.log)
    decreases |schedule|
  {
    if schedule == [] {
      StartInv(db, pool, work);
    } else {
      var ch := schedule[|schedule| - 1];
      var s := Run(Start(db, pool, work), schedule[..|schedule| - 1]);
      RunInv(db, pool, work, schedule[..|schedule| - 1]);
      hide Inv, Agrees, Explained, Advance, Fault;
      match Step(s, ch)
      case None =>
      case Some(s') =>
        var base := Replay(db, s.log);
        if ch.fault { FaultKeeps(s, base, ch.client, s'); } else { AdvanceKeeps(s, base, ch.client, s'); }
        ExplainedAppend(db, base, s, s');
    }
  }

  // ----- crash recovery: roll back whatever is open, in any state -----

  function Recover(db: Db, clients: seq<Client>): Db
    decreases |clients|
  {
    if clients == [] then db
    else Recover(Rollback(db, clients[|clients| - 1].undo), clients[..|clients| - 1])
  }

  /** Money that has left a sender and not yet reached a receiver. */
  function InFlight(): Client -> int
  {
    (cl: Client) => if |cl.undo| == 1 && cl.todo != [] then cl.todo[0].amount else 0
  }

  /** Client c's unit of work is rolled back on the spot. */
  lemma Undone(s: State, base: Db, c: nat) returns (s': State)
    requires Inv(s, base) && c < |s.clients| && s.clients[c].undo != []
    ensures Inv(s', base)
    ensures s'.db == Rollback(s.db, s.clients[c].undo)
    ensures |s'.clients| == |s.clients| && s'.clients == s.clients[c := s'.clients[c]] && s'.clients[c].undo == []
    ensures Total(s'.db.accounts) == Total(s.db.accounts) + InFlight()(s.clients[c])
  {
    assert OwnOk(s, base, s.clients[c], c);
    var job := s.clients[c].todo[0];
    UndoneTotal(s, base, c, job);
    hide Inv, OwnOk, ClientOk, Rollback;
    if s.clients[c].phase.Raised? {
      RollbackKeeps(s, base, c, job, s.clients[c].phase.error);
      s' := RollbackStep(s, c, job, s.clients[c].phase.error);
    } else {
      RaiseKeeps(s, base, c, DriverError);
      var r := Put(s, c, s.clients[c].(phase := Raised(DriverError)));
      RollbackKeeps(r, base, c, job, DriverError);
      s' := RollbackStep(r, c, job, DriverError);
    }
  }

  lemma UndoneTotal(s: State, base: Db, c: nat, job: Job)
    requires Inv(s, base) && c < |s.clients| && s.clients[c].undo != []
    requires s.clients[c].todo != [] && job == s.clients[c].todo[0]
    ensures Total(Rollback(s.db, s.clients[c].undo).accounts) == Total(s.db.accounts) + InFlight()(s.clients[c])
  {
    assert OwnOk(s, base, s.clients[c], c);
    assert Cleared(base, s.locks, job, c);
    RollbackEffect(s.db, base.accounts, job, |s.clients[c].undo|);
    var a, f := s.db.accounts, Balance();
    SumMapUpdate(a, f, job.sender, base.accounts[job.sender]);
    SumMapUpdate(a[job.sender := base.accounts[job.sender]], f, job.receiver, base.accounts[job.receiver]);
    hide Inv, ClientOk, Rollback;
  }

  /** Rolling back the open units of work of the first n clients gives the serial database and the missing money. */
  lemma {:induction false} RecoverFirst(s: State, base: Db, n: nat)
    requires Inv(s, base) && n <= |s.clients|
    requires forall c :: n <= c < |s.clients| ==> s.clients[c].undo == []
    ensures Recover(s.db, s.clients[..n]) == base
    ensures Total(s.db.accounts) + SumSeq(s.clients[..n], InFlight()) == Total(base.accounts)
    decreases n
  {
    if n == 0 {
      NothingOpen(s, base);
    } else {
      var c := n - 1;
      assert s.clients[..n] == s.clients[..c] + [s.clients[c]];
      assert s.clients[..n][..c] == s.clients[..c];
      SumSeqAppend(s.clients[..c], [s.clients[c]], InFlight());
      hide Inv;
      if s.clients[c].undo == [] {
        RecoverFirst(s, base, c);
      } else {
        var s' := Undone(s, base, c);
        assert s'.clients[..c] == s.clients[..c];
        RecoverFirst(s', base, c);
      }
    }
  }

  lemma NothingOpen(s: State, base: Db)
    requires Inv(s, base)
    requires forall c :: 0 <= c < |s.clients| ==> s.clients[c].undo == []
    ensures s.db == base
  {
    forall k | k in base.accounts ensures s.db.accounts[k] == base.accounts[k] {
      if k in s.locks {
        assert OwnOk(s, base, s.clients[s.locks[k]], s.locks[k]);
        assert Holds(s.locks, s.locks[k], k);
      }
    }
    forall t | t in s.inserts ensures false {
      assert OwnOk(s, base, s.clients[s.inserts[t]], s.inserts[t]);
      assert Holds(s.inserts, s.inserts[t], t);
    }
  }

  // ----- main results -----

  /**
   * Serializability with crash recovery. Stop any run anywhere, roll back what is open: the database is the one
   * obtained by running the history's transfers one at a time, and each decided call got that run's answer.
   */
  lemma {:induction false} Serializability(db: Db, pool: nat, work: seq<seq<Job>>, schedule: seq<Choice>)
    requires InRange(db.accounts)
    ensures var s := Run(Start(db, pool, work), schedule);
            && Recover(s.db, s.clients) == Replay(db, s.log)
            && Agrees(db, s.log)
  {
    var s := Run(Start(db, pool, work), schedule);
    RunInv(db, pool, work, schedule);
    assert s.clients[..|s.clients|] == s.clients;
    hide Inv;
    RecoverFirst(s, Replay(db, s.log), |s.clients|);
  }

  /**
   * Money. At every step the working balances plus the money in flight make the starting total, the committed
   * balances alone make it too, and neither table ever shows a balance outside the column's range.
   */
  lemma {:induction false} MoneyConserved(db: Db, pool: nat, work: seq<seq<Job>>, schedule: seq<Choice>)
    requires InRange(db.accounts)
    ensures var s := Run(Start(db, pool, work), schedule);
            && Total(s.db.accounts) + SumSeq(s.clients, InFlight()) == Total(db.accounts)
            && Total(Replay(db, s.log).accounts) == Total(db.accounts)
            && InRange(s.db.accounts) && InRange(Replay(db, s.log).accounts)
            && (forall k :: k in s.db.accounts ==> 0 <= s.db.accounts[k].balance <= 999_999_999_999_999)
  {
    var s := Run(Start(db, pool, work), schedule);
    RunInv(db, pool, work, schedule);
    assert s.clients[..|s.clients|] == s.clients;
    ReplayConserves(db, s.log);
    WorkingInRange(s, Replay(db, s.log));
    hide Inv;
    RecoverFirst(s, Replay(db, s.log), |s.clients|);
  }

  lemma WorkingInRange(s: State, base: Db)
    requires Inv(s, base)
    ensures InRange(s.db.accounts)
  {
    forall k | k in s.db.accounts ensures 0 <= s.db.accounts[k].balance <= MAX_CENTS {
      if k in s.locks {
        assert OwnOk(s, base, s.clients[s.locks[k]], s.locks[k]);
        assert Holds(s.locks, s.locks[k], k);
      }
    }
    hide ClientOk;
  }

  /** No statement of any run makes the CHECK fire: neither pending nor in the history is there such an error. */
  lemma {:induction false} CheckUnreachable(db: Db, pool: nat, work: seq<seq<Job>>, schedule: seq<Choice>)
    requires InRange(db.accounts)
    ensures var s := Run(Start(db, pool, work), schedule);
            && (forall c :: 0 <= c < |s.clients| ==> s.clients[c].phase != Raised(CheckFailed))
            && (forall i :: 0 <= i < |s.log| ==> s.log[i].outcome != CheckFailed)
  {
    RunInv(db, pool, work, schedule);
    var s := Run(Start(db, pool, work), schedule);
    forall c | 0 <= c < |s.clients| ensures s.clients[c].phase != Raised(CheckFailed) {
      assert OwnOk(s, Replay(db, s.log), s.clients[c], c);
    }
  }

  lemma NoneOverflowing(s: State, base: Db)
    requires Inv(s, base) && Total(base.accounts) <= MAX_CENTS
    ensures forall c :: 0 <= c < |s.clients| ==> s.clients[c].phase != Raised(OutOfRange)
  {
    hide Moved;
    forall c | 0 <= c < |s.clients| ensures s.clients[c].phase != Raised(OutOfRange) {
      assert OwnOk(s, base, s.clients[c], c);
      if s.clients[c].phase == Raised(OutOfRange) {
        NoOverflowWhileTotalFits(base, s.clients[c].todo[0]);
      }
    }
  }

  /** If all the money in the bank fits in one balance, no credit of any run leaves the column's range. */
  lemma {:induction false} OverflowUnreachable(db: Db, pool: nat, work: seq<seq<Job>>, schedule: seq<Choice>)
    requires InRange(db.accounts) && Total(db.accounts) <= MAX_CENTS
    ensures var s := Run(Start(db, pool, work), schedule);
            && (forall c :: 0 <= c < |s.clients| ==> s.clients[c].phase != Raised(OutOfRange))
            && (forall i :: 0 <= i < |s.log| ==> s.log[i].outcome != OutOfRange)
  {
    RunInv(db, pool, work, schedule);
    var s := Run(Start(db, pool, work), schedule);
    ReplayConserves(db, s.log);
    hide Inv, Attempt, Run, Start, InRange;
    NoneOverflowing(s, Replay(db, s.log));
    forall i | 0 <= i < |s.log| ensures s.log[i].outcome != OutOfRange {
      ReplayConserves(db, s.log[..i]);
      NoOverflowWhileTotalFits(Replay(db, s.log[..i]), s.log[i].job);
    }
  }

  /** From s to s', client c has given up: its rows and ledger row are back, and nobody else notices. */
  ghost predicate Withdrawn(s: State, s': State, base: Db, c: nat, e: Outcome)
    requires c < |s.clients| && s.clients[c].todo != []
  {
    var job := s.clients[c].todo[0];
    && s.db.accounts.Keys == s'.db.accounts.Keys == base.accounts.Keys
    && (forall k :: k in base.accounts ==>
          s'.db.accounts[k] == if Holds(s.locks, c, k) then base.accounts[k] else s.db.accounts[k])
    && s'.db.ledger == (if |s.clients[c].undo| == 3 then s.db.ledger - {job.txn} else s.db.ledger)
    && s'.locks == Release(s.locks, c) && s'.inserts == Release(s.inserts, c) && s'.free == s.free
    && s'.clients == s.clients[c := Client(s.clients[c].todo, Ended(e), [], s.clients[c].answers)]
    && s'.log == s.log + [Entry(c, job, e)]
  }

  lemma Withdraws(s: State, base: Db, c: nat, e: Outcome) returns (s': State)
    requires Inv(s, base) && c < |s.clients| && s.clients[c].phase == Raised(e)
    ensures s.clients[c].todo != [] && Advance(s, c) == Some(s') && Withdrawn(s, s', base, c, e)
    ensures s'.log == s.log + [Entry(c, s.clients[c].todo[0], e)]
    ensures Accident(e) || Attempt(base, s.clients[c].todo[0]) == (base, e)
  {
    assert OwnOk(s, base, s.clients[c], c);
    var job := s.clients[c].todo[0];
    s' := RollbackStep(s, c, job, e);
    RollbackKeeps(s, base, c, job, e);
    RollbackDb(s, base, c, job, s'.db);
    hide Inv, OwnOk, ClientOk, Rollback, Attempt;
  }

  /**
   * Abort transparency. Whatever has been raised in client c's unit of work, at any statement of any run (a refusal,
   * an insufficient balance, an overflowing credit after the debit, a duplicate ledger id, a driver error), its
   * rollback restores exactly the rows the client has locked and its ledger row, frees exactly its locks, leaves every
   * other client and its uncommitted writes as they were, and does not change the serial reading of the history.
   */
  lemma {:induction false} AbortTransparent(db: Db, pool: nat, work: seq<seq<Job>>, schedule: seq<Choice>, c: nat,
                                            e: Outcome)
    requires InRange(db.accounts)
    requires var s := Run(Start(db, pool, work), schedule); c < |s.clients| && s.clients[c].phase == Raised(e)
    ensures var s := Run(Start(db, pool, work), schedule);
            var s' := Run(Start(db, pool, work), schedule + [Choice(c, false)]);
            && s.clients[c].todo != [] && Withdrawn(s, s', Replay(db, s.log), c, e)
            && Replay(db, s'.log) == Replay(db, s.log)
            && (Accident(e) || Attempt(Replay(db, s.log), s.clients[c].todo[0]) == (Replay(db, s.log), e))
  {
    var s := Run(Start(db, pool, work), schedule);
    var base := Replay(db, s.log);
    RunInv(db, pool, work, schedule);
    hide Inv, Withdrawn, Attempt, Start, Advance, Replay;
    var s' := Withdraws(s, base, c, e);
    assert (schedule + [Choice(c, false)])[..|schedule|] == schedule;
    ReplayAppend(db, s.log, Entry(c, s.clients[c].todo[0], e));
  }

  /** So a driver fault at any statement inside the unit of work, followed by the rollback, is as if nothing had run. */
  lemma {:induction false} FaultTransparent(db: Db, pool: nat, work: seq<seq<Job>>, schedule: seq<Choice>, c: nat)
    requires InRange(db.accounts)
    requires var s := Run(Start(db, pool, work), schedule);
             c < |s.clients| && s.clients[c].todo != []
             && var p := s.clients[c].phase; !p.Idle? && !p.Waiting? && !p.Raised? && !p.Ended?
    ensures var s := Run(Start(db, pool, work), schedule);
            var s' := Run(Start(db, pool, work), schedule + [Choice(c, true)] + [Choice(c, false)]);
            Withdrawn(s, s', Replay(db, s.log), c, DriverError) && Replay(db, s'.log) == Replay(db, s.log)
  {
    var s := Run(Start(db, pool, work), schedule);
    assert (schedule + [Choice(c, true)])[..|schedule|] == schedule;
    assert Run(Start(db, pool, work), schedule + [Choice(c, true)])
        == Put(s, c, s.clients[c].(phase := Raised(DriverError)));
    AbortTransparent(db, pool, work, schedule + [Choice(c, true)], c, DriverError);
    hide Run, Start, Replay, Attempt;
  }

  /** Every transfer that any run carries out was asked for by an admin or by the sending account's owner. */
  lemma {:induction false} DoneIsAuthorized(db: Db, pool: nat, work: seq<seq<Job>>, schedule: seq<Choice>, i: nat)
    requires InRange(db.accounts)
    requires var log := Run(Start(db, pool, work), schedule).log; i < |log| && log[i].outcome.Done?
    ensures var job := Run(Start(db, pool, work), schedule).log[i].job;
            && job.sender in db.accounts && job.receiver in db.accounts
            && (job.actor.role == "ADMIN" || job.actor.customer == Some(db.accounts[job.sender].customer))
  {
    var log := Run(Start(db, pool, work), schedule).log;
    Serializability(db, pool, work, schedule);
    hide Run, Start, Recover;
    var before := Replay(db, log[..i]);
    ReplayConserves(db, log[..i]);
    assert Attempt(before, log[i].job).1 == log[i].outcome;
    DoneSides(before, log[i].job);
  }

  lemma DoneSides(db: Db, job: Job)
    requires Attempt(db, job).1.Done?
    ensures job.sender in db.accounts && job.receiver in db.accounts
    ensures job.actor.role == "ADMIN" || job.actor.customer == Some(db.accounts[job.sender].customer)
  {
    RefusedExactly(db, job);
    ForbiddenExactly(db, job);
  }

  /** A call may also fail while it waits for a connection: it is answered at once and nothing else changes. */
  lemma WaitingMayFail(s: State, c: nat)
    requires c < |s.clients| && s.clients[c].phase == Waiting && s.clients[c].todo != []
    ensures var cl := s.clients[c];
            Step(s, Choice(c, true)) ==
            Some(s.(clients := s.clients[c := Client(cl.todo[1..], Idle, [], cl.answers + [DriverError])],
                    log := s.log + [Entry(c, cl.todo[0], DriverError)]))
  {
  }
}
