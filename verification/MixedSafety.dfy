/** Serializability and bookkeeping of every concurrent mixture of transfers and the other writers. */
module MixedSafety {
  import opened Bank
  import opened Books
  import opened MixedMachine
  import opened MixedInvariant

  // ----- commit and rollback -----

  /** What a client about to commit has written is its operation, run alone. */
  lemma WroteIsApply(db: Db, base: Db, own: set<Res>, peek: set<Res>, cl: Client)
    requires InRange(base.accounts) && ClientInv(db, base, own, peek, cl) && cl.phase.Wrote?
    ensures Apply(base, cl.todo[0]).1 == cl.phase.reply && Shows(db, base, own, Apply(base, cl.todo[0]).0)
    ensures Moves(base, Apply(base, cl.todo[0]).0, own)
  {
    var op := cl.todo[0];
    match op
    case Move(job) => MoveCommits(db, base, own, peek, job, cl.phase, cl.undo);
    case _ => SingleCommits(base, own, op, db);
  }

  lemma MoveCommits(db: Db, base: Db, own: set<Res>, peek: set<Res>, job: Job, phase: Phase, undo: seq<Undo>)
    requires InRange(base.accounts) && MoveInv(db, base, own, peek, job, phase, undo) && phase.Wrote?
    ensures Apply(base, Move(job)) == (MoveDb(base, job, 3), phase.reply)
    ensures Shows(db, base, own, MoveDb(base, job, 3)) && Moves(base, MoveDb(base, job, 3), own)
  {
    ThreeWritesAreTheMove(base, job);
    AttemptConserves(base, job);
    assert Refusal(base, job) == None;
    hide Attempt, Refusal, MoveUndo, MovePhase;
    MoveMoves(base, own, job);
  }

  lemma ThreeWritesAreTheMove(base: Db, job: Job)
    requires job.sender in base.accounts && job.receiver in base.accounts && Refusal(base, job) == None
    ensures Attempt(base, job) == (MoveDb(base, job, 3), Done(RowOf(job)))
  {
    MovedIsDebitCredit(base.accounts, job.sender, job.receiver, job.amount);
  }

  lemma MoveMoves(base: Db, own: set<Res>, job: Job)
    requires Cleared(base, own, job) && Led(job.txn) in own && InRange(MoveDb(base, job, 3).accounts)
    ensures Moves(base, MoveDb(base, job, 3), own)
  {
    hide InRange;
  }

  lemma SingleCommits(base: Db, own: set<Res>, op: Op, db: Db)
    requires InRange(base.accounts) && !op.Move? && Shows(db, base, own, Apply(base, op).0)
    ensures Moves(base, Apply(base, op).0, own)
  {
    hide Get;
  }

  lemma CommitKeeps(s: State, base: Db, c: nat)
    requires Inv(s, base) && c < |s.clients| && s.clients[c].todo != [] && s.clients[c].phase.Wrote?
    ensures var (base', reply) := Apply(base, s.clients[c].todo[0]);
            reply == s.clients[c].phase.reply && Inv(Finish(s, c, Some(reply)), base')
  {
    var cl := s.clients[c];
    assert ClientInv(s.db, base, Own(s, c), Peek(s, c), cl);
    WroteIsApply(s.db, base, Own(s, c), Peek(s, c), cl);
    hide Inv, ClientInv, Apply, Moves;
    FinishKeeps(s, base, Apply(base, cl.todo[0]).0, c, Some(cl.phase.reply), s.db);
    assert s.(db := s.db) == s;
  }

  /** A client may be rolled back in any state; the serial tables stay what they are. */
  lemma RollbackKeeps(s: State, base: Db, c: nat, answer: Option<Reply>)
    requires Inv(s, base) && c < |s.clients| && s.clients[c].todo != []
    ensures Inv(Finish(s.(db := Rollback(s.db, s.clients[c].undo)), c, answer), base)
  {
    var cl := s.clients[c];
    assert ClientInv(s.db, base, Own(s, c), Peek(s, c), cl);
    var db := Rollback(s.db, cl.undo);
    forall r ensures Get(db, r) == if r in Own(s, c) then Get(base, r) else Get(s.db, r) {
      RollbackLocal(s.db, base, Own(s, c), Peek(s, c), cl, r);
    }
    assert Moves(base, base, Own(s, c));
    hide Inv, ClientInv, Get, Rollback, Moves;
    FinishKeeps(s, base, base, c, answer, db);
  }

  /** A refusal on its way up is the serial run's. */
  lemma RaisedIsApply(s: State, base: Db, c: nat, reply: Reply)
    requires Inv(s, base) && c < |s.clients| && s.clients[c].phase == Raised(Some(reply))
    ensures s.clients[c].todo != [] && Apply(base, s.clients[c].todo[0]) == (base, reply)
  {
    assert ClientInv(s.db, base, Own(s, c), Peek(s, c), s.clients[c]);
    hide Inv, Get, Shows;
  }

  // ----- every step -----

  ghost predicate Explained(base: Db, s: State, s': State, base': Db)
  {
    || (s'.log == s.log && base' == base)
    || (exists e: Entry :: s'.log == s.log + [e] &&
          if e.answer == None then base' == base
          else Apply(base, e.op) == (base', e.answer.value))
  }

  lemma AcceptKeeps(s: State, base: Db, c: nat, s': State)
    requires Inv(s, base) && c < |s.clients| && s.clients[c].phase.Idle? && Advance(s, c) == Some(s')
    ensures Inv(s', base) && Explained(base, s, s', base)
  {
    var cl := s.clients[c];
    assert ClientInv(s.db, base, Own(s, c), Peek(s, c), cl);
    var op := cl.todo[0];
    if op.Move? && (op.job.amount <= 0 || op.job.sameSpelling) {
      var answer := Some(Transferred(if op.job.amount <= 0 then BadAmount else SameAccount));
      RollbackKeeps(s, base, c, answer);
      assert s.(db := Rollback(s.db, cl.undo)) == s;
      assert s'.log == s.log + [Entry(c, op, answer)];
    } else {
      hide Inv;
      RaiseKeeps(s, base, c, Began);
    }
  }

  lemma EndKeeps(s: State, base: Db, c: nat, s': State) returns (base': Db)
    requires Inv(s, base) && c < |s.clients| && Advance(s, c) == Some(s')
    requires s.clients[c].phase.Wrote? || s.clients[c].phase.Raised?
    ensures Inv(s', base') && Explained(base, s, s', base')
  {
    var cl := s.clients[c];
    if cl.phase.Wrote? {
      CommitKeeps(s, base, c);
      base' := Apply(base, cl.todo[0]).0;
      assert s'.log == s.log + [Entry(c, cl.todo[0], Some(cl.phase.reply))];
    } else {
      RollbackKeeps(s, base, c, cl.phase.answer);
      base' := base;
      if cl.phase.answer.Some? { RaisedIsApply(s, base, c, cl.phase.answer.value); }
      assert s'.log == s.log + [Entry(c, cl.todo[0], cl.phase.answer)];
    }
  }

  /** A statement inside the unit of work adds nothing to the history. */
  lemma StatementKeeps(s: State, base: Db, c: nat, s': State)
    requires Inv(s, base) && c < |s.clients| && Advance(s, c) == Some(s')
    requires var p := s.clients[c].phase; !p.Idle? && !p.Wrote? && !p.Raised?
    ensures Inv(s', base) && s'.log == s.log
  {
    var cl := s.clients[c];
    hide Inv, Rollback;
    match cl.todo[0]
    case Move(job) =>
      if cl.phase.Began? || cl.phase.FirstLocked? { LockStepKeeps(s, base, c, job, s'); }
      else if cl.phase.BothLocked? { CheckKeeps(s, base, c, job); }
      else if cl.phase.Checked? { DebitKeeps(s, base, c, job); }
      else if cl.phase.Debited? { CreditKeeps(s, base, c, job); }
      else { InsertKeeps(s, base, c, job, s'); }
    case op => ExecuteKeeps(s, base, c, op, s');
  }

  lemma StepKeeps(s: State, base: Db, ch: Choice, s': State) returns (base': Db)
    requires Inv(s, base) && Step(s, ch) == Some(s')
    ensures Inv(s', base') && Explained(base, s, s', base')
  {
    hide Inv, Advance, Fault, Explained;
    var p := s.clients[ch.client].phase;
    base' := base;
    if ch.fault {
      FaultKeeps(s, base, ch.client);
      FaultLog(s, base, ch.client, s');
    } else if p.Idle? {
      AcceptKeeps(s, base, ch.client, s');
    } else if p.Wrote? || p.Raised? {
      base' := EndKeeps(s, base, ch.client, s');
    } else {
      StatementKeeps(s, base, ch.client, s');
      Unlogged(base, s, s');
    }
  }

  lemma FaultLog(s: State, base: Db, c: nat, s': State)
    requires c < |s.clients| && Fault(s, c) == Some(s')
    ensures Explained(base, s, s', base)
  {
  }

  lemma Unlogged(base: Db, s: State, s': State)
    requires s'.log == s.log
    ensures Explained(base, s, s', base)
  {
  }

  lemma StartInv(db: Db, work: seq<seq<Op>>)
    requires InRange(db.accounts)
    ensures Inv(Start(db, work), db)
  {
    var s := Start(db, work);
    forall c | 0 <= c < |work| ensures Own(s, c) == {} && Peek(s, c) == {} {
    }
  }

  lemma ExplainedAppend(db: Db, base: Db, s: State, s': State, base': Db)
    requires base == Play(db, Ops(s.log)) && Agrees(db, s.log) && Explained(base, s, s', base')
    ensures base' == Play(db, Ops(s'.log)) && Agrees(db, s'.log)
  {
    if !(s'.log == s.log && base' == base) {
      var e :| s'.log == s.log + [e] &&
               if e.answer == None then base' == base else Apply(base, e.op) == (base', e.answer.value);
      OpsAppend(s.log, e);
      PlayAppend(db, Ops(s.log), e.op);
      AgreesAppend(db, s.log, e);
    }
  }

  /** Every state of every run satisfies the invariant relative to the books' serial run of its own history. */
  lemma {:induction false} RunInv(db: Db, work: seq<seq<Op>>, schedule: seq<Choice>)
    requires InRange(db.accounts)
    ensures var s := Run(Start(db, work), schedule); Inv(s, Play(db, Ops(s.log))) && Agrees(db, s.log)
    decreases |schedule|
  {
    if schedule == [] {
      StartInv(db, work);
    } else {
      var ch := schedule[|schedule| - 1];
      var s := Run(Start(db, work), schedule[..|schedule| - 1]);
      RunInv(db, work, schedule[..|schedule| - 1]);
      hide Inv, Agrees, Explained, Step, Start, Play, Ops;
      match Step(s, ch)
      case None =>
      case Some(s') =>
        var base' := StepKeeps(s, Play(db, Ops(s.log)), ch, s');
        ExplainedAppend(db, Play(db, Ops(s.log)), s, s', base');
    }
  }

  // ----- recovery -----

  function Recover(db: Db, clients: seq<Client>): Db
    decreases |clients|
  {
    if clients == [] then db
    else Recover(Rollback(db, clients[|clients| - 1].undo), clients[..|clients| - 1])
  }

  lemma NothingOpen(s: State, base: Db)
    requires Inv(s, base) && forall c :: 0 <= c < |s.clients| ==> s.clients[c].phase.Idle?
    ensures s.db == base
  {
    forall c | 0 <= c < |s.clients| ensures Own(s, c) == {} {
      assert ClientInv(s.db, base, Own(s, c), Peek(s, c), s.clients[c]);
    }
    forall r ensures r !in s.locks {
      assert r in s.locks ==> r in Own(s, s.locks[r]);
    }
    SameDb(s.db, base);
  }

  lemma {:induction false} RecoverFirst(s: State, base: Db, n: nat)
    requires Inv(s, base) && n <= |s.clients|
    requires forall c :: n <= c < |s.clients| ==> s.clients[c].phase.Idle?
    ensures Recover(s.db, s.clients[..n]) == base
    decreases n
  {
    if n == 0 {
      NothingOpen(s, base);
    } else {
      var c := n - 1;
      assert s.clients[..n][..c] == s.clients[..c];
      assert ClientInv(s.db, base, Own(s, c), Peek(s, c), s.clients[c]);
      assert s.clients[c].phase.Idle? ==> Rollback(s.db, s.clients[c].undo) == s.db;
      assert !s.clients[c].phase.Idle? ==> s.clients[c].todo != [];
      hide Inv, ClientInv, Rollback;
      if s.clients[c].phase.Idle? {
        RecoverFirst(s, base, c);
      } else {
        RollbackKeeps(s, base, c, None);
        var s' := Finish(s.(db := Rollback(s.db, s.clients[c].undo)), c, None);
        assert s'.clients[..c] == s.clients[..c];
        RecoverFirst(s', base, c);
      }
    }
  }

  // ----- main results -----

  /**
   * Serializability of all writers together. Stop any run of any number of clients anywhere, each working through any
   * list of account creations, transfers, balance changes, account deletions and ledger deletions, and roll back what
   * is open: the tables are those of the books' serial run of the history, and every answered call, refusals included,
   * got the answer it gets there.
   */
  lemma {:induction false} MixedSerializability(db: Db, work: seq<seq<Op>>, schedule: seq<Choice>)
    requires InRange(db.accounts)
    ensures var s := Run(Start(db, work), schedule);
            Recover(s.db, s.clients) == Play(db, Ops(s.log)) && Agrees(db, s.log)
  {
    var s := Run(Start(db, work), schedule);
    RunInv(db, work, schedule);
    assert s.clients[..|s.clients|] == s.clients;
    hide Inv, Run, Start, Agrees;
    RecoverFirst(s, Play(db, Ops(s.log)), |s.clients|);
  }

  /**
   * The books of every concurrent mixture: the schema's constraints hold after recovery, each live account reconciles
   * with the ledger and the administrative changes, and the bank's total has moved only by decree.
   */
  lemma {:induction false} MixedBooks(db: Db, work: seq<seq<Op>>, schedule: seq<Choice>, a: Key)
    requires Sound(db)
    ensures var s := Run(Start(db, work), schedule);
            var end := Recover(s.db, s.clients);
            && Sound(end) && Reconciles(end, a, Notes(db, Ops(s.log), a))
            && Total(end.accounts) == Total(db.accounts) + AllInjected(db, Ops(s.log))
  {
    var s := Run(Start(db, work), schedule);
    MixedSerializability(db, work, schedule);
    hide Run, Start, Agrees, Recover;
    PlaySound(db, Ops(s.log));
    BooksReconcile(db, Ops(s.log), a);
    BankTotal(db, Ops(s.log));
  }

  // ----- every call once, in its client's order -----

  /** The calls of client c in the history. */
  function CallsOf(log: seq<Entry>, c: nat): seq<Op>
  {
    if log == [] then []
    else
      var earlier, last := CallsOf(log[..|log| - 1], c), log[|log| - 1];
      if last.client == c then earlier + [last.op] else earlier
  }

  /** A step leaves the client's list and the history alone, or moves its next call from the one to the other. */
  lemma StepOrder(s: State, ch: Choice, s': State)
    requires Step(s, ch) == Some(s')
    ensures |s'.clients| == |s.clients| && s'.clients == s.clients[ch.client := s'.clients[ch.client]]
    ensures var cl, cl' := s.clients[ch.client], s'.clients[ch.client];
            || (s'.log == s.log && cl'.todo == cl.todo)
            || (cl.todo != [] && cl'.todo == cl.todo[1..]
                && exists answer :: s'.log == s.log + [Entry(ch.client, cl.todo[0], answer)])
  {
    hide Apply, Rollback, Rows, Claimed, Debit, Credit, Waits;
  }

  lemma {:induction false} EveryCallOnce(db: Db, work: seq<seq<Op>>, schedule: seq<Choice>)
    ensures var s := Run(Start(db, work), schedule);
            |s.clients| == |work| && forall c :: 0 <= c < |work| ==> CallsOf(s.log, c) + s.clients[c].todo == work[c]
    decreases |schedule|
  {
    if schedule != [] {
      var s, ch := Run(Start(db, work), schedule[..|schedule| - 1]), schedule[|schedule| - 1];
      EveryCallOnce(db, work, schedule[..|schedule| - 1]);
      match Step(s, ch)
      case None =>
      case Some(s') =>
        StepOrder(s, ch, s');
        hide Step, Start, Run, CallsOf;
        forall c | 0 <= c < |work| ensures CallsOf(s'.log, c) + s'.clients[c].todo == work[c] {
          OrderKept(s, ch.client, s', c);
        }
    }
  }

  lemma OrderKept(s: State, d: nat, s': State, c: nat)
    requires c < |s.clients| == |s'.clients| && d < |s.clients| && s'.clients == s.clients[d := s'.clients[d]]
    requires var cl, cl' := s.clients[d], s'.clients[d];
             || (s'.log == s.log && cl'.todo == cl.todo)
             || (cl.todo != [] && cl'.todo == cl.todo[1..]
                 && exists answer :: s'.log == s.log + [Entry(d, cl.todo[0], answer)])
    ensures CallsOf(s'.log, c) + s'.clients[c].todo == CallsOf(s.log, c) + s.clients[c].todo
  {
    if !(s'.log == s.log && s'.clients[d].todo == s.clients[d].todo) {
      var op := s.clients[d].todo[0];
      var answer :| s'.log == s.log + [Entry(d, op, answer)];
      OneMoreCall(s.log, Entry(d, op, answer), c);
      if c == d {
        hide CallsOf;
        assert s.clients[d].todo == [op] + s'.clients[d].todo;
        Regroup(CallsOf(s.log, c), op, s'.clients[d].todo);
      }
    }
  }

  lemma OneMoreCall(log: seq<Entry>, e: Entry, c: nat)
    ensures CallsOf(log + [e], c) == if e.client == c then CallsOf(log, c) + [e.op] else CallsOf(log, c)
  {
    assert (log + [e])[..|log|] == log;
  }

  lemma Regroup(a: seq<Op>, op: Op, b: seq<Op>)
    ensures a + ([op] + b) == (a + [op]) + b
  {
  }
}
