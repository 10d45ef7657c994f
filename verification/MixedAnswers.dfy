/** What the mixed machine does for its callers: it answers, it aborts cleanly, it waits only for cause. */
module MixedAnswers {
  import opened Bank
  import opened Books
  import opened MixedMachine
  import opened MixedInvariant
  import opened MixedSafety

  // ----- a call that nobody disturbs -----

  ghost predicate IdleBut(s: State, c: nat)
  {
    forall d :: 0 <= d < |s.clients| && d != c ==> s.clients[d].phase.Idle?
  }

  function Left(p: Phase): nat
  {
    match p
    case Idle => 9
    case Began => 8
    case FirstLocked(_) => 7
    case BothLocked(_, _) => 6
    case Checked => 5
    case Debited => 4
    case Credited => 3
    case Wrote(_) => 2
    case Raised(_) => 1
  }

  lemma OnlyHolder(s: State, base: Db, c: nat)
    requires Inv(s, base) && IdleBut(s, c)
    ensures forall r :: r in s.locks ==> s.locks[r] == c
    ensures forall g :: g in s.gaps ==> g.client == c
  {
    forall d | 0 <= d < |s.clients| && d != c ensures Own(s, d) == {} && Peek(s, d) == {} {
      assert ClientInv(s.db, base, Own(s, d), Peek(s, d), s.clients[d]);
    }
    forall r | r in s.locks ensures s.locks[r] == c { assert r in Own(s, s.locks[r]); }
    forall g | g in s.gaps ensures g.client == c { assert g.res in Peek(s, g.client); }
  }

  lemma AloneMoves(s: State, base: Db, c: nat)
    requires Inv(s, base) && IdleBut(s, c) && c < |s.clients| && s.clients[c].todo != []
    ensures Advance(s, c).Some?
  {
    OnlyHolder(s, base, c);
    assert ClientInv(s.db, base, Own(s, c), Peek(s, c), s.clients[c]);
    hide Inv, Shows, Rollback, Apply, MoveUndo;
  }

  /** A normal step brings the call closer to its end or ends it, and never makes a driver error. */
  lemma StepEnds(s: State, c: nat, s': State)
    requires c < |s.clients| && Advance(s, c) == Some(s') && s.clients[c].phase != Raised(None)
    ensures |s'.clients| == |s.clients| && s'.clients == s.clients[c := s'.clients[c]]
    ensures var cl, cl' := s.clients[c], s'.clients[c];
            || (s'.log == s.log && cl'.todo == cl.todo && cl'.phase != Raised(None) && Left(cl'.phase) < Left(cl.phase))
            || (cl.todo != [] && cl' == Client(cl.todo[1..], Idle, [])
                && |s'.log| == |s.log| + 1 && s'.log[|s.log|].answer.Some?
                && s'.log == s.log + [Entry(c, cl.todo[0], s'.log[|s.log|].answer)])
  {
    hide Apply, Rollback, Rows, Claimed, Debit, Credit, Waits, UndoFor;
  }

  lemma RunAppend(start: State, done: seq<Choice>, ch: Choice, s': State)
    requires Step(Run(start, done), ch) == Some(s')
    ensures Run(start, done + [ch]) == s'
  {
    assert (done + [ch])[..|done|] == done;
  }

  lemma {:induction false} CallEnds(db: Db, work: seq<seq<Op>>, schedule: seq<Choice>, c: nat)
    returns (longer: seq<Choice>, reply: Reply)
    requires InRange(db.accounts)
    requires var s := Run(Start(db, work), schedule);
             && c < |s.clients| && s.clients[c].todo != [] && IdleBut(s, c) && s.clients[c].phase != Raised(None)
    ensures var s, t := Run(Start(db, work), schedule), Run(Start(db, work), longer);
            && t.clients == s.clients[c := Client(s.clients[c].todo[1..], Idle, [])]
            && t.log == s.log + [Entry(c, s.clients[c].todo[0], Some(reply))]
    decreases Left(Run(Start(db, work), schedule).clients[c].phase)
  {
    var s, ch := Run(Start(db, work), schedule), Choice(c, false);
    RunInv(db, work, schedule);
    AloneMoves(s, Play(db, Ops(s.log)), c);
    var s' := Advance(s, c).value;
    StepEnds(s, c, s');
    RunAppend(Start(db, work), schedule, ch, s');
    hide Inv, Run, Start, Step, Advance, Agrees, Left;
    longer := schedule + [ch];
    if s'.log == s.log {
      longer, reply := CallEnds(db, work, longer, c);
    } else {
      reply := s'.log[|s.log|].answer.value;
    }
  }

  /**
   * In any state of any run in which everybody is between calls, each client's next call can be served, and alone it
   * does and answers exactly what its operation means on the tables as they stand.
   */
  lemma {:induction false} AloneIsServed(db: Db, work: seq<seq<Op>>, schedule: seq<Choice>, c: nat)
    returns (longer: seq<Choice>)
    requires InRange(db.accounts)
    requires var s := Run(Start(db, work), schedule);
             && c < |s.clients| && s.clients[c].todo != []
             && forall d :: 0 <= d < |s.clients| ==> s.clients[d].phase.Idle?
    ensures var s, t := Run(Start(db, work), schedule), Run(Start(db, work), longer);
            var (db', reply) := Apply(s.db, s.clients[c].todo[0]);
            && t.db == db' && t.log == s.log + [Entry(c, s.clients[c].todo[0], Some(reply))]
            && t.clients == s.clients[c := Client(s.clients[c].todo[1..], Idle, [])]
  {
    var s := Run(Start(db, work), schedule);
    var op := s.clients[c].todo[0];
    var reply;
    longer, reply := CallEnds(db, work, schedule, c);
    var t := Run(Start(db, work), longer);
    RunInv(db, work, schedule);
    RunInv(db, work, longer);
    hide Run, Start;
    NothingOpen(s, Play(db, Ops(s.log)));
    NothingOpen(t, Play(db, Ops(t.log)));
    OpsAppend(s.log, Entry(c, op, Some(reply)));
    PlayAppend(db, Ops(s.log), op);
    assert t.log[..|s.log|] == s.log && t.log[|s.log|] == Entry(c, op, Some(reply));
  }

  // ----- a call that fails -----

  /**
   * A driver error at any statement of any operation, the commit included, followed by the rollback: the rows the
   * client has locked show their serial values again, every other row and client is as it was, its locks and gaps alone
   * are free, and the history's serial reading has not changed.
   */
  lemma {:induction false} MixedFaultTransparent(db: Db, work: seq<seq<Op>>, schedule: seq<Choice>, c: nat)
    requires InRange(db.accounts)
    requires var s := Run(Start(db, work), schedule);
             c < |s.clients| && !s.clients[c].phase.Idle? && !s.clients[c].phase.Raised?
    ensures var s := Run(Start(db, work), schedule);
            var t := Run(Start(db, work), schedule + [Choice(c, true)] + [Choice(c, false)]);
            var base := Play(db, Ops(s.log));
            && s.clients[c].todo != []
            && (forall r :: Get(t.db, r) == if r in Own(s, c) then Get(base, r) else Get(s.db, r))
            && t.clients == s.clients[c := Client(s.clients[c].todo[1..], Idle, [])]
            && t.locks == (map r | r in s.locks && s.locks[r] != c :: s.locks[r])
            && t.gaps == (set g | g in s.gaps && g.client != c)
            && t.log == s.log + [Entry(c, s.clients[c].todo[0], None)] && Play(db, Ops(t.log)) == base
  {
    var start := Start(db, work);
    var s := Run(start, schedule);
    var base := Play(db, Ops(s.log));
    RunInv(db, work, schedule);
    var mid, t := FaultThenRollback(s, base, c);
    RunAppend(start, schedule, Choice(c, true), mid);
    RunAppend(start, schedule + [Choice(c, true)], Choice(c, false), t);
    hide Run, Inv, Step, Get, Start, Agrees;
    OpsAppend(s.log, Entry(c, s.clients[c].todo[0], None));
  }

  lemma FaultThenRollback(s: State, base: Db, c: nat) returns (mid: State, t: State)
    requires Inv(s, base) && c < |s.clients| && !s.clients[c].phase.Idle? && !s.clients[c].phase.Raised?
    ensures Step(s, Choice(c, true)) == Some(mid) && Step(mid, Choice(c, false)) == Some(t)
    ensures s.clients[c].todo != []
    ensures forall r :: Get(t.db, r) == if r in Own(s, c) then Get(base, r) else Get(s.db, r)
    ensures t.clients == s.clients[c := Client(s.clients[c].todo[1..], Idle, [])]
    ensures t.locks == (map r | r in s.locks && s.locks[r] != c :: s.locks[r])
    ensures t.gaps == (set g | g in s.gaps && g.client != c)
    ensures t.log == s.log + [Entry(c, s.clients[c].todo[0], None)]
  {
    assert ClientInv(s.db, base, Own(s, c), Peek(s, c), s.clients[c]);
    mid := With(s, c, s.clients[c].(phase := Raised(None)), {}, {});
    t := Finish(mid.(db := Rollback(mid.db, s.clients[c].undo)), c, None);
    forall r ensures Get(t.db, r) == if r in Own(s, c) then Get(base, r) else Get(s.db, r) {
      RollbackLocal(s.db, base, Own(s, c), Peek(s, c), s.clients[c], r);
    }
    hide Inv, ClientInv, Get, Rollback, Own, Peek;
  }

  // ----- a call that waits -----

  /** The row or gap is the one the operation names, or a ledger row that refers to the account to be deleted. */
  predicate Concerns(op: Op, r: Res, db: Db)
  {
    match op
    case Create(id, _, _, _) => r == Acc(id)
    case Adjust(id, _) => r == Acc(id)
    case Erase(t) => r == Led(t)
    case Close(id, _) =>
      || r == Acc(id)
      || (r.Led? && r.key in db.ledger && (db.ledger[r.key].source == id || db.ledger[r.key].target == Some(id)))
    case Move(_) => false
  }

  lemma ConcernIsInterest(op: Op, r: Res, db: Db)
    ensures Concerns(op, r, db) <==> Interest(op, r, db)
  {
  }

  lemma HolderOf(s: State, base: Db, c: nat, op: Op, r: Res) returns (d: nat)
    requires Inv(s, base) && Contended(s, c, op, r)
    ensures d < |s.clients| && d != c && r in Own(s, d) && (Interest(op, r, s.db) || Interest(op, r, base))
  {
    d := s.locks[r];
    assert r in Own(s, d);
    RollbackLocal(s.db, base, Own(s, d), Peek(s, d), s.clients[d], r);
    SameInterest(op, r, Rollback(s.db, s.clients[d].undo), base);
  }

  lemma GapHolder(s: State, base: Db, op: Op, g: Gap)
    requires Inv(s, base) && !op.Move? && g in s.gaps && g.res in Rows(s.db, op)
    ensures g.client < |s.clients| && g.res in Peek(s, g.client) && Interest(op, g.res, s.db)
  {
    ClaimedIsInterest(s.db, op);
    assert g.res in Claimed(s.db, op);
    hide ClientInv, Get, Claimed, Interest;
  }

  /** A statement waits only for another client that holds a row or gap it concerns, as the tables are or would be. */
  lemma WaitsForCause(s: State, base: Db, c: nat, op: Op)
    requires Inv(s, base) && c < |s.clients| && !op.Move? && Execute(s, c, op) == None
    ensures exists d, r :: 0 <= d < |s.clients| && d != c && (r in Own(s, d) || r in Peek(s, d))
                           && (Concerns(op, r, s.db) || Concerns(op, r, base))
  {
    assert Waits(s, c, op);
    hide Inv, Execute, Own, Peek, Rows, Interest, Concerns, Contended;
    if r :| r in s.locks && Contended(s, c, op, r) {
      var d := HolderOf(s, base, c, op, r);
      ConcernIsInterest(op, r, s.db);
      ConcernIsInterest(op, r, base);
    } else {
      var g :| g in s.gaps && g.client != c && g.res in Rows(s.db, op);
      GapHolder(s, base, op, g);
      ConcernIsInterest(op, g.res, s.db);
    }
  }

  // ----- who may move money -----

  /** Every transfer any mixed run carries out was asked for by an admin or by the owner of the account at that time. */
  lemma {:induction false} MixedDoneIsAuthorized(db: Db, work: seq<seq<Op>>, schedule: seq<Choice>, i: nat)
    requires InRange(db.accounts)
    requires var log := Run(Start(db, work), schedule).log;
             && i < |log| && log[i].op.Move? && log[i].answer.Some? && log[i].answer.value.Transferred?
             && log[i].answer.value.outcome.Done?
    ensures var log := Run(Start(db, work), schedule).log;
            var held, job := Play(db, Ops(log[..i])), log[i].op.job;
            && job.sender in held.accounts && job.receiver in held.accounts
            && (job.actor.role == "ADMIN" || job.actor.customer == Some(held.accounts[job.sender].customer))
  {
    var log := Run(Start(db, work), schedule).log;
    RunInv(db, work, schedule);
    hide Run, Start, Inv;
    var before := Play(db, Ops(log[..i]));
    assert Apply(before, log[i].op).1 == log[i].answer.value;
    RefusedExactly(before, log[i].op.job);
    ForbiddenExactly(before, log[i].op.job);
  }
}
