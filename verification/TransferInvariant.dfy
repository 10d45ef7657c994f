/** What every step of the transfer machine keeps, relative to the serial database `base`. */
module TransferInvariant {
  import opened Bank
  import opened TransferMachine

  // ----- what a client's own writes have done so far -----

  function AfterDebit(accounts: map<Key, Account>, job: Job): map<Key, Account>
    requires job.sender in accounts
  {
    accounts[job.sender := accounts[job.sender].(balance := accounts[job.sender].balance - job.amount)]
  }

  function AfterCredit(accounts: map<Key, Account>, job: Job): map<Key, Account>
    requires job.sender in accounts && job.receiver in accounts
  {
    var a := AfterDebit(accounts, job);
    a[job.receiver := a[job.receiver].(balance := a[job.receiver].balance + job.amount)]
  }

  function UndoPlan(accounts: map<Key, Account>, job: Job): seq<Undo>
    requires job.sender in accounts && job.receiver in accounts
  {
    [Before(job.sender, accounts[job.sender]), Before(job.receiver, AfterDebit(accounts, job)[job.receiver]),
     Inserted(job.txn)]
  }

  /** The account table as a client's n-th write leaves it. */
  function Written(accounts: map<Key, Account>, job: Job, n: nat): map<Key, Account>
    requires n > 0 ==> job.sender in accounts && job.receiver in accounts
  {
    if n == 0 then accounts else if n == 1 then AfterDebit(accounts, job) else AfterCredit(accounts, job)
  }

  // ----- the invariant, client by client -----

  ghost predicate Holds(locks: map<Key, nat>, c: nat, k: Key)
  {
    k in locks && locks[k] == c
  }

  /** The client read this row, and if the row exists has kept it locked since. */
  ghost predicate Saw(base: Db, locks: map<Key, nat>, c: nat, k: Key, row: Option<Account>)
  {
    row == Lookup(base.accounts, k) && (k in base.accounts ==> Holds(locks, c, k))
  }

  ghost predicate Cleared(base: Db, locks: map<Key, nat>, job: Job, c: nat)
  {
    && job.sender in base.accounts && job.receiver in base.accounts
    && Allowed(job.actor, base.accounts[job.sender])
    && Holds(locks, c, job.sender) && Holds(locks, c, job.receiver)
  }

  ghost predicate UndoOk(base: Db, locks: map<Key, nat>, inserts: map<Key, nat>, job: Job, undo: seq<Undo>, c: nat)
  {
    && |undo| <= 3
    && (|undo| > 0 ==>
          && Cleared(base, locks, job, c)
          && base.accounts[job.sender].balance >= job.amount
          && undo == UndoPlan(base.accounts, job)[..|undo|])
    && (|undo| > 1 ==> Fits(base.accounts, job))
    && (|undo| > 2 ==> Holds(inserts, c, job.txn))
  }

  /** A refusal on its way to the caller is the one the serial run gives, and stays so until rollback. */
  ghost predicate RefusalStable(base: Db, locks: map<Key, nat>, job: Job, c: nat, o: Outcome)
  {
    || Accident(o)
    || (Refusal(base, job) == Some(o) && (o == Insufficient || o == OutOfRange ==> Cleared(base, locks, job, c)))
  }

  ghost predicate PhaseOk(base: Db, locks: map<Key, nat>, job: Job, phase: Phase, writes: nat, c: nat)
  {
    match phase
    case Idle => false
    case Waiting => writes == 0
    case Connected => writes == 0
    case Began => writes == 0
    case FirstLocked(r1) => writes == 0 && Saw(base, locks, c, job.First(), r1)
    case BothLocked(r1, r2) =>
      writes == 0 && Saw(base, locks, c, job.First(), r1) && Saw(base, locks, c, job.Second(), r2)
    case Checked => writes == 0 && Cleared(base, locks, job, c)
    case Debited => writes == 1
    case Credited => writes == 2
    case Recorded => writes == 3
    case Raised(o) => RefusalStable(base, locks, job, c, o)
    case Ended(_) => writes == 0
  }

  ghost predicate ClientOk(base: Db, locks: map<Key, nat>, inserts: map<Key, nat>, cl: Client, c: nat)
  {
    if cl.phase.Idle? then cl.undo == []
    else
      && cl.todo != []
      && cl.todo[0].amount > 0 && !cl.todo[0].sameSpelling
      && UndoOk(base, locks, inserts, cl.todo[0], cl.undo, c)
      && PhaseOk(base, locks, cl.todo[0], cl.phase, |cl.undo|, c)
  }

  /** Which rows a client may have locked at this point of its call. */
  predicate MayHold(cl: Client, k: Key)
  {
    cl.todo != [] &&
    match cl.phase
    case Idle => false
    case Waiting => false
    case Connected => false
    case Began => false
    case Ended(_) => false
    case FirstLocked(_) => k == cl.todo[0].First()
    case _ => k == cl.todo[0].sender || k == cl.todo[0].receiver
  }

  /** A row its holder has not written shows its serial value; otherwise the holder's last write. */
  ghost predicate RowIs(base: Db, cl: Client, k: Key, row: Account)
    requires k in base.accounts
  {
    if cl.undo == [] then row == base.accounts[k]
    else
      && cl.todo != [] && cl.todo[0].sender in base.accounts && cl.todo[0].receiver in base.accounts
      && row == Written(base.accounts, cl.todo[0], |cl.undo|)[k]
  }

  /** Everything about client c: its own progress, the rows it has locked, the ledger row it has inserted. */
  ghost predicate OwnOk(s: State, base: Db, cl: Client, c: nat)
  {
    && ClientOk(base, s.locks, s.inserts, cl, c)
    && (forall k :: Holds(s.locks, c, k) ==>
          k in base.accounts && k in s.db.accounts && MayHold(cl, k) && RowIs(base, cl, k, s.db.accounts[k]))
    && (forall t :: Holds(s.inserts, c, t) ==>
          && cl.todo != [] && |cl.undo| == 3 && t == cl.todo[0].txn
          && t in s.db.ledger && s.db.ledger[t] == RowOf(cl.todo[0]))
  }

  ghost predicate LedgerOk(s: State, base: Db)
  {
    && s.db.ledger.Keys == base.ledger.Keys + s.inserts.Keys
    && s.inserts.Keys !! base.ledger.Keys
    && (forall t :: t in base.ledger ==> s.db.ledger[t] == base.ledger[t])
  }

  ghost predicate Inv(s: State, base: Db)
  {
    && InRange(base.accounts)
    && s.db.accounts.Keys == base.accounts.Keys
    && (forall k :: k in s.locks ==> s.locks[k] < |s.clients|)
    && (forall t :: t in s.inserts ==> s.inserts[t] < |s.clients|)
    && (forall k :: k in base.accounts && k !in s.locks ==> s.db.accounts[k] == base.accounts[k])
    && LedgerOk(s, base)
    && (forall c :: 0 <= c < |s.clients| ==> OwnOk(s, base, s.clients[c], c))
  }

  lemma StartInv(db: Db, pool: nat, work: seq<seq<Job>>)
    requires InRange(db.accounts)
    ensures Inv(Start(db, pool, work), db)
  {
  }

  // ----- one frame for all steps -----

  /** Seen from client d, nothing has moved: it holds the same locks and the rows under them are the same. */
  ghost predicate Undisturbed(s: State, base: Db, s': State, base': Db, d: nat)
  {
    && base'.accounts.Keys == base.accounts.Keys
    && (forall k :: k in base.accounts ==> base'.accounts[k].customer == base.accounts[k].customer)
    && s.db.accounts.Keys == base.accounts.Keys && s'.db.accounts.Keys == s.db.accounts.Keys
    && (forall k :: Holds(s.locks, d, k) <==> Holds(s'.locks, d, k))
    && (forall k :: Holds(s.locks, d, k) && k in base.accounts ==>
          base'.accounts[k] == base.accounts[k] && s'.db.accounts[k] == s.db.accounts[k])
    && (forall t :: Holds(s.inserts, d, t) <==> Holds(s'.inserts, d, t))
    && (forall t :: Holds(s.inserts, d, t) && t in s.db.ledger ==>
          t in s'.db.ledger && s'.db.ledger[t] == s.db.ledger[t])
  }

  lemma ClientFrame(s: State, base: Db, s': State, base': Db, cl: Client, d: nat)
    requires ClientOk(base, s.locks, s.inserts, cl, d) && Undisturbed(s, base, s', base', d)
    ensures ClientOk(base', s'.locks, s'.inserts, cl, d)
  {
  }

  lemma OthersFrame(s: State, base: Db, s': State, base': Db, cl: Client, d: nat)
    requires OwnOk(s, base, cl, d) && Undisturbed(s, base, s', base', d)
    ensures OwnOk(s', base', cl, d)
  {
    ClientFrame(s, base, s', base', cl, d);
    hide ClientOk;
    forall k | Holds(s'.locks, d, k)
      ensures k in base'.accounts && k in s'.db.accounts && MayHold(cl, k) && RowIs(base', cl, k, s'.db.accounts[k])
    {
      assert Holds(s.locks, d, k);
    }
  }

  /** A step of client c: all it touches is its own record, locks, inserts, and rows it holds or held. */
  ghost predicate LocalStep(s: State, base: Db, s': State, base': Db, c: nat)
    requires c < |s.clients|
  {
    && |s'.clients| == |s.clients| && s'.clients == s.clients[c := s'.clients[c]]
    && InRange(base'.accounts) && base'.accounts.Keys == base.accounts.Keys
    && (forall k :: k in base.accounts ==> base'.accounts[k].customer == base.accounts[k].customer)
    && s'.db.accounts.Keys == s.db.accounts.Keys
    && (forall k :: k in base.accounts && k in s.db.accounts && !Holds(s.locks, c, k) ==>
          base'.accounts[k] == base.accounts[k] && s'.db.accounts[k] == s.db.accounts[k])
    && (forall k :: k in base.accounts && k in s'.db.accounts && Holds(s.locks, c, k) && k !in s'.locks ==>
          s'.db.accounts[k] == base'.accounts[k])
    && (forall k :: k in s.locks && s.locks[k] != c ==> k in s'.locks && s'.locks[k] == s.locks[k])
    && (forall k :: k in s'.locks && s'.locks[k] != c ==> k in s.locks && s.locks[k] == s'.locks[k])
    && (forall t :: t in s.inserts && s.inserts[t] != c ==> t in s'.inserts && s'.inserts[t] == s.inserts[t])
    && (forall t :: t in s'.inserts && s'.inserts[t] != c ==> t in s.inserts && s.inserts[t] == s'.inserts[t])
    && (forall t :: t in s.inserts && s.inserts[t] != c && t in s.db.ledger ==>
          t in s'.db.ledger && s'.db.ledger[t] == s.db.ledger[t])
    && LedgerOk(s', base')
    && OwnOk(s', base', s'.clients[c], c)
  }

  lemma LocalUndisturbed(s: State, base: Db, s': State, base': Db, c: nat, d: nat)
    requires c < |s.clients| && LocalStep(s, base, s', base', c) && d != c
    requires s.db.accounts.Keys == base.accounts.Keys
    ensures Undisturbed(s, base, s', base', d)
  {
    hide OwnOk, LedgerOk;
  }

  lemma LocalKeeps(s: State, base: Db, s': State, base': Db, c: nat)
    requires c < |s.clients| && Inv(s, base) && LocalStep(s, base, s', base', c)
    ensures Inv(s', base')
  {
    hide OwnOk, LedgerOk, Undisturbed;
    forall d | 0 <= d < |s'.clients| ensures OwnOk(s', base', s'.clients[d], d) {
      if d != c {
        LocalUndisturbed(s, base, s', base', c, d);
        OthersFrame(s, base, s', base', s.clients[d], d);
      }
    }
  }

  // ----- steps that only move the client's own program counter, perhaps taking a lock on the way -----

  ghost predicate Quiet(s: State, s': State, c: nat)
    requires c < |s.clients|
  {
    && s'.db == s.db && s'.inserts == s.inserts
    && |s'.clients| == |s.clients| && s'.clients == s.clients[c := s'.clients[c]]
    && (forall k :: k in s.locks ==> k in s'.locks && s'.locks[k] == s.locks[k])
    && (forall k :: k in s'.locks && k !in s.locks ==>
          s'.locks[k] == c && k in s.db.accounts && s.clients[c].undo == [])
    && s'.clients[c].undo == s.clients[c].undo
    && (s.clients[c].undo == [] || s'.clients[c].todo == s.clients[c].todo)
    && (forall k :: Holds(s'.locks, c, k) ==> MayHold(s'.clients[c], k))
  }

  lemma QuietKeeps(s: State, base: Db, s': State, c: nat)
    requires Inv(s, base) && c < |s.clients| && Quiet(s, s', c)
    requires ClientOk(base, s'.locks, s'.inserts, s'.clients[c], c)
    ensures Inv(s', base)
  {
    assert OwnOk(s, base, s.clients[c], c);
    assert OwnOk(s', base, s'.clients[c], c) by {
      hide ClientOk;
      forall k | Holds(s'.locks, c, k)
        ensures k in base.accounts && k in s'.db.accounts && RowIs(base, s'.clients[c], k, s'.db.accounts[k])
      {
        assert k in s.locks ==> Holds(s.locks, c, k);
      }
    }
    hide OwnOk, ClientOk;
    LocalKeeps(s, base, s', base, c);
  }

  /** A row no other client has locked shows its serial value to a client that has not written. */
  lemma CleanRow(s: State, base: Db, c: nat, k: Key)
    requires Inv(s, base) && c < |s.clients| && s.clients[c].undo == []
    requires k in s.locks ==> s.locks[k] == c
    ensures Lookup(s.db.accounts, k) == Lookup(base.accounts, k)
  {
    hide ClientOk;
    assert OwnOk(s, base, s.clients[c], c);
    assert k in s.locks ==> Holds(s.locks, c, k);
  }

  lemma FirstLockKeeps(s: State, base: Db, c: nat, s': State)
    requires Inv(s, base) && c < |s.clients| && s.clients[c].phase.Began? && Advance(s, c) == Some(s')
    ensures Inv(s', base)
  {
    assert OwnOk(s, base, s.clients[c], c);
    var mine := s.clients[c].todo[0].First();
    CleanRow(s, base, c, mine);
    hide Inv, RowIs, LedgerOk;
    assert forall k :: Holds(s'.locks, c, k) ==> k == mine || Holds(s.locks, c, k);
    QuietKeeps(s, base, s', c);
  }

  lemma SecondLockKeeps(s: State, base: Db, c: nat, s': State)
    requires Inv(s, base) && c < |s.clients| && s.clients[c].phase.FirstLocked? && Advance(s, c) == Some(s')
    ensures Inv(s', base)
  {
    assert OwnOk(s, base, s.clients[c], c);
    var mine := s.clients[c].todo[0].Second();
    CleanRow(s, base, c, mine);
    hide Inv, RowIs, LedgerOk;
    assert forall k :: Holds(s'.locks, c, k) ==> k == mine || Holds(s.locks, c, k);
    QuietKeeps(s, base, s', c);
  }

  lemma CheckKeeps(s: State, base: Db, c: nat, s': State)
    requires Inv(s, base) && c < |s.clients| && s.clients[c].phase.BothLocked? && Advance(s, c) == Some(s')
    ensures Inv(s', base)
  {
    assert OwnOk(s, base, s.clients[c], c);
    hide Inv;
    QuietKeeps(s, base, s', c);
  }

  /** An exception inside the unit of work only changes where its client goes next. */
  lemma RaiseKeeps(s: State, base: Db, c: nat, o: Outcome)
    requires Inv(s, base) && c < |s.clients| && InUnitOfWork(s.clients[c].phase)
    requires s.clients[c].todo != [] && RefusalStable(base, s.locks, s.clients[c].todo[0], c, o)
    ensures Inv(Put(s, c, s.clients[c].(phase := Raised(o))), base)
  {
    assert OwnOk(s, base, s.clients[c], c);
    hide Inv;
    QuietKeeps(s, base, Put(s, c, s.clients[c].(phase := Raised(o))), c);
  }

  // ----- debit and credit -----

  /** The state after client c writes row k and logs the before-image u. */
  function WriteRow(s: State, c: nat, k: Key, a: Account, u: Undo, next: Phase): State
    requires c < |s.clients|
  {
    Put(s, c, s.clients[c].(phase := next, undo := s.clients[c].undo + [u]))
      .(db := Db(s.db.accounts[k := a], s.db.ledger))
  }

  lemma WriteRowOwn(s: State, base: Db, c: nat, k: Key, a: Account, u: Undo, next: Phase)
    requires c < |s.clients| && OwnOk(s, base, s.clients[c], c)
    requires s.clients[c].todo != [] && |s.clients[c].undo| < 2
    requires ClientOk(base, s.locks, s.inserts, s.clients[c].(phase := next, undo := s.clients[c].undo + [u]), c)
    requires forall j :: Holds(s.locks, c, j) ==>
               && MayHold(s.clients[c].(phase := next), j) && j in s.db.accounts
               && s.clients[c].todo[0].sender in base.accounts && s.clients[c].todo[0].receiver in base.accounts
               && j in base.accounts
               && s.db.accounts[k := a][j] == Written(base.accounts, s.clients[c].todo[0], |s.clients[c].undo| + 1)[j]
    ensures OwnOk(WriteRow(s, c, k, a, u, next), base, WriteRow(s, c, k, a, u, next).clients[c], c)
  {
    hide ClientOk, Written;
  }

  lemma WriteRowKeeps(s: State, base: Db, c: nat, k: Key, a: Account, u: Undo, next: Phase)
    requires Inv(s, base) && c < |s.clients| && s.clients[c].todo != []
    requires |s.clients[c].undo| < 2 && Holds(s.locks, c, k)
    requires next.Debited? || next.Credited?
    requires ClientOk(base, s.locks, s.inserts, s.clients[c].(phase := next, undo := s.clients[c].undo + [u]), c)
    requires forall j :: Holds(s.locks, c, j) ==>
               && MayHold(s.clients[c].(phase := next), j) && j in s.db.accounts
               && s.clients[c].todo[0].sender in base.accounts && s.clients[c].todo[0].receiver in base.accounts
               && j in base.accounts
               && s.db.accounts[k := a][j] == Written(base.accounts, s.clients[c].todo[0], |s.clients[c].undo| + 1)[j]
    ensures Inv(WriteRow(s, c, k, a, u, next), base)
  {
    var s' := WriteRow(s, c, k, a, u, next);
    assert OwnOk(s, base, s.clients[c], c);
    WriteRowOwn(s, base, c, k, a, u, next);
    hide OwnOk, ClientOk;
    LocalKeeps(s, base, s', base, c);
  }

  lemma DebitClient(base: Db, locks: map<Key, nat>, inserts: map<Key, nat>, cl: Client, c: nat)
    requires cl.phase.Checked? && ClientOk(base, locks, inserts, cl, c)
    requires base.accounts[cl.todo[0].sender].balance >= cl.todo[0].amount
    ensures ClientOk(base, locks, inserts,
              cl.(phase := Debited, undo := cl.undo + [UndoPlan(base.accounts, cl.todo[0])[0]]), c)
  {
    assert cl.undo + [UndoPlan(base.accounts, cl.todo[0])[0]] == UndoPlan(base.accounts, cl.todo[0])[..1];
  }

  /** The debit changes no row exactly when the balance in serial order is below the amount. */
  lemma DebitKeeps(s: State, base: Db, c: nat, job: Job)
    requires Inv(s, base) && c < |s.clients| && s.clients[c].phase.Checked? && s.clients[c].todo != []
    requires job == s.clients[c].todo[0]
    ensures job.sender in base.accounts
    ensures Debit(s.db.accounts, job.sender, job.amount).Changed?
    ensures Debit(s.db.accounts, job.sender, job.amount).rows == 0 <==> base.accounts[job.sender].balance < job.amount
    ensures Inv(DebitStep(s, c, job), base)
  {
    assert OwnOk(s, base, s.clients[c], c);
    assert Cleared(base, s.locks, job, c);
    hide Inv;
    if base.accounts[job.sender].balance < job.amount {
      RaiseKeeps(s, base, c, Insufficient);
      assert DebitStep(s, c, job) == Put(s, c, s.clients[c].(phase := Raised(Insufficient)));
    } else {
      var row, image := AfterDebit(base.accounts, job)[job.sender], UndoPlan(base.accounts, job)[0];
      DebitClient(base, s.locks, s.inserts, s.clients[c], c);
      WriteRowKeeps(s, base, c, job.sender, row, image, Debited);
      assert DebitStep(s, c, job) == WriteRow(s, c, job.sender, row, image, Debited);
    }
  }

  lemma CreditClient(base: Db, locks: map<Key, nat>, inserts: map<Key, nat>, cl: Client, c: nat)
    requires cl.phase.Debited? && ClientOk(base, locks, inserts, cl, c)
    requires Fits(base.accounts, cl.todo[0])
    ensures ClientOk(base, locks, inserts,
              cl.(phase := Credited, undo := cl.undo + [UndoPlan(base.accounts, cl.todo[0])[1]]), c)
  {
    assert cl.undo + [UndoPlan(base.accounts, cl.todo[0])[1]] == UndoPlan(base.accounts, cl.todo[0])[..2];
  }

  /** The credit is refused exactly when the serial run would leave the column's range. */
  lemma CreditKeeps(s: State, base: Db, c: nat, job: Job)
    requires Inv(s, base) && c < |s.clients| && s.clients[c].phase.Debited? && s.clients[c].todo != []
    requires job == s.clients[c].todo[0]
    ensures job.receiver in base.accounts
    ensures Credit(s.db.accounts, job.receiver, job.amount) == Refused(OutOfRange) <==> !Fits(base.accounts, job)
    ensures Inv(CreditStep(s, c, job), base)
  {
    assert OwnOk(s, base, s.clients[c], c);
    assert Cleared(base, s.locks, job, c);
    assert 0 <= base.accounts[job.receiver].balance <= MAX_CENTS && 0 <= base.accounts[job.sender].balance <= MAX_CENTS;
    hide Inv;
    assert s.db.accounts[job.receiver] == AfterDebit(base.accounts, job)[job.receiver];
    if Fits(base.accounts, job) {
      var row, image := AfterCredit(base.accounts, job)[job.receiver], UndoPlan(base.accounts, job)[1];
      CreditClient(base, s.locks, s.inserts, s.clients[c], c);
      WriteRowKeeps(s, base, c, job.receiver, row, image, Credited);
      assert CreditStep(s, c, job) == WriteRow(s, c, job.receiver, row, image, Credited);
    } else {
      RaiseKeeps(s, base, c, OutOfRange);
      assert CreditStep(s, c, job) == Put(s, c, s.clients[c].(phase := Raised(OutOfRange)));
    }
  }

  // ----- the ledger insert -----

  lemma InsertClient(base: Db, locks: map<Key, nat>, inserts: map<Key, nat>, cl: Client, c: nat)
    requires cl.phase.Credited? && ClientOk(base, locks, inserts, cl, c)
    ensures ClientOk(base, locks, inserts[cl.todo[0].txn := c],
              cl.(phase := Recorded, undo := cl.undo + [Inserted(cl.todo[0].txn)]), c)
  {
    assert cl.undo + [Inserted(cl.todo[0].txn)] == UndoPlan(base.accounts, cl.todo[0])[..3];
  }

  lemma InsertOwn(s: State, base: Db, c: nat, job: Job)
    requires Inv(s, base) && c < |s.clients| && s.clients[c].phase.Credited? && s.clients[c].todo != []
    requires job == s.clients[c].todo[0] && job.txn !in s.db.ledger
    ensures OwnOk(InsertStep(s, c, job), base, InsertStep(s, c, job).clients[c], c)
    ensures LedgerOk(InsertStep(s, c, job), base)
  {
    assert OwnOk(s, base, s.clients[c], c);
    InsertClient(base, s.locks, s.inserts, s.clients[c], c);
    hide ClientOk;
  }

  lemma InsertLocal(s: State, base: Db, c: nat, job: Job)
    requires Inv(s, base) && c < |s.clients| && job.txn !in s.db.ledger
    requires OwnOk(InsertStep(s, c, job), base, InsertStep(s, c, job).clients[c], c)
    requires LedgerOk(InsertStep(s, c, job), base)
    ensures LocalStep(s, base, InsertStep(s, c, job), base, c)
  {
    assert job.txn !in s.inserts;
    hide OwnOk, LedgerOk;
  }

  lemma InsertKeeps(s: State, base: Db, c: nat, job: Job)
    requires Inv(s, base) && c < |s.clients| && s.clients[c].phase.Credited? && s.clients[c].todo != []
    requires job == s.clients[c].todo[0]
    ensures Inv(InsertStep(s, c, job), base)
  {
    if job.txn in s.db.ledger {
      RaiseKeeps(s, base, c, Duplicate);
    } else {
      InsertOwn(s, base, c, job);
      InsertLocal(s, base, c, job);
      hide Inv, InsertStep, LocalStep;
      LocalKeeps(s, base, InsertStep(s, c, job), base, c);
    }
  }

  // ----- the end of the unit of work: commit moves the base, rollback restores it -----

  /** Client c lets go of everything; the rows it held are as the new base has them. */
  ghost predicate Lets(s: State, base: Db, s': State, base': Db, c: nat)
    requires c < |s.clients|
  {
    && |s'.clients| == |s.clients| && s'.clients == s.clients[c := s'.clients[c]]
    && s'.locks == Release(s.locks, c) && s'.inserts == Release(s.inserts, c)
    && InRange(base'.accounts) && base'.accounts.Keys == base.accounts.Keys
    && s'.db.accounts.Keys == base.accounts.Keys
    && (forall k :: k in base.accounts ==> base'.accounts[k].customer == base.accounts[k].customer)
    && (forall k :: k in base.accounts && Holds(s.locks, c, k) ==> s'.db.accounts[k] == base'.accounts[k])
    && (forall k :: k in base.accounts && k in s.db.accounts && !Holds(s.locks, c, k) ==>
          base'.accounts[k] == base.accounts[k] && s'.db.accounts[k] == s.db.accounts[k])
    && (forall t :: t in s'.inserts && t in s.db.ledger ==> t in s'.db.ledger && s'.db.ledger[t] == s.db.ledger[t])
  }

  lemma LetsIsLocal(s: State, base: Db, s': State, base': Db, c: nat)
    requires Inv(s, base) && c < |s.clients| && Lets(s, base, s', base', c)
    requires OwnOk(s', base', s'.clients[c], c) && LedgerOk(s', base')
    ensures LocalStep(s, base, s', base', c)
  {
    hide OwnOk, LedgerOk;
    assert forall k :: k in s.locks && s.locks[k] != c ==> k in s'.locks;
  }

  lemma ReleaseKeeps(s: State, base: Db, s': State, base': Db, c: nat)
    requires Inv(s, base) && c < |s.clients| && Lets(s, base, s', base', c)
    requires ClientOk(base', s'.locks, s'.inserts, s'.clients[c], c) && LedgerOk(s', base')
    ensures Inv(s', base')
  {
    assert OwnOk(s', base', s'.clients[c], c);
    LetsIsLocal(s, base, s', base', c);
    hide OwnOk, LedgerOk, ClientOk, LocalStep, Lets;
    LocalKeeps(s, base, s', base', c);
  }

  lemma CommitBase(base: Db, locks: map<Key, nat>, inserts: map<Key, nat>, cl: Client, c: nat)
    requires cl.phase.Recorded? && ClientOk(base, locks, inserts, cl, c) && cl.todo[0].txn !in base.ledger
    ensures Refusal(base, cl.todo[0]) == None
    ensures Attempt(base, cl.todo[0]).0.accounts == AfterCredit(base.accounts, cl.todo[0])
  {
    MovedIsDebitCredit(base.accounts, cl.todo[0].sender, cl.todo[0].receiver, cl.todo[0].amount);
  }

  lemma EndedClient(base: Db, locks: map<Key, nat>, inserts: map<Key, nat>, cl: Client, c: nat,
                    base': Db, locks': map<Key, nat>, inserts': map<Key, nat>, o: Outcome)
    requires !cl.phase.Idle? && ClientOk(base, locks, inserts, cl, c)
    ensures ClientOk(base', locks', inserts', cl.(phase := Ended(o), undo := []), c)
  {
  }

  lemma CommitTables(s: State, base: Db, c: nat, job: Job)
    requires Inv(s, base) && c < |s.clients| && s.clients[c].phase.Recorded? && s.clients[c].todo != []
    requires job == s.clients[c].todo[0] && Refusal(base, job) == None
    requires Attempt(base, job).0.accounts == AfterCredit(base.accounts, job)
    requires InRange(Attempt(base, job).0.accounts)
    ensures Lets(s, base, CommitStep(s, c, job), Attempt(base, job).0, c)
  {
    assert OwnOk(s, base, s.clients[c], c);
    assert Cleared(base, s.locks, job, c);
    hide ClientOk, Moved, Refusal, LedgerOk;
  }

  lemma CommitLedger(s: State, base: Db, c: nat, job: Job)
    requires Inv(s, base) && c < |s.clients| && s.clients[c].phase.Recorded? && s.clients[c].todo != []
    requires job == s.clients[c].todo[0] && Refusal(base, job) == None
    ensures LedgerOk(CommitStep(s, c, job), Attempt(base, job).0)
  {
    assert OwnOk(s, base, s.clients[c], c);
    assert Holds(s.inserts, c, job.txn);
    assert forall t :: t in s.inserts && t != job.txn ==> !Holds(s.inserts, c, t);
    hide ClientOk, Moved, Refusal;
  }

  /** A commit is the moment the transfer happens: the serial run does the same transfer, with the same answer. */
  lemma CommitKeeps(s: State, base: Db, c: nat, job: Job)
    requires Inv(s, base) && c < |s.clients| && s.clients[c].phase.Recorded? && s.clients[c].todo != []
    requires job == s.clients[c].todo[0]
    ensures Attempt(base, job).1 == Done(RowOf(job))
    ensures Inv(CommitStep(s, c, job), Attempt(base, job).0)
  {
    assert OwnOk(s, base, s.clients[c], c);
    CommitBase(base, s.locks, s.inserts, s.clients[c], c);
    AttemptConserves(base, job);
    var s', base' := CommitStep(s, c, job), Attempt(base, job).0;
    EndedClient(base, s.locks, s.inserts, s.clients[c], c, base', s'.locks, s'.inserts, Done(RowOf(job)));
    CommitTables(s, base, c, job);
    CommitLedger(s, base, c, job);
    hide Inv, LedgerOk, OwnOk, ClientOk, Lets, Attempt;
    ReleaseKeeps(s, base, s', base', c);
  }

  /** Undoing a client's first n writes puts both rows back and takes its ledger row out, whatever else changed. */
  lemma RollbackEffect(db: Db, base: map<Key, Account>, job: Job, n: nat)
    requires 0 < n <= 3
    requires job.sender in base && job.receiver in base && job.sender in db.accounts && job.receiver in db.accounts
    requires db.accounts[job.receiver] == Written(base, job, n)[job.receiver]
    ensures Rollback(db, UndoPlan(base, job)[..n])
         == Db(db.accounts[job.sender := base[job.sender]][job.receiver := base[job.receiver]],
               if n == 3 then db.ledger - {job.txn} else db.ledger)
  {
    var plan := UndoPlan(base, job);
    var db2 := if n == 3 then Db(db.accounts, db.ledger - {job.txn}) else db;
    var db1 := if n >= 2 then UndoOne(db2, plan[1]) else db2;
    assert plan[..1][..0] == [] && plan[..2][..1] == plan[..1] && plan[..3][..2] == plan[..2];
    assert Rollback(db1, plan[..1]) == UndoOne(db1, plan[0]);
    assert n >= 2 ==> Rollback(db2, plan[..2]) == Rollback(db1, plan[..1]);
  }

  /** What rollback leaves: the rows c holds at their serial values, every other row as it was. */
  lemma RollbackDb(s: State, base: Db, c: nat, job: Job, undone: Db)
    requires c < |s.clients| && OwnOk(s, base, s.clients[c], c) && s.db.accounts.Keys == base.accounts.Keys
    requires s.clients[c].phase.Raised? && s.clients[c].todo != [] && job == s.clients[c].todo[0]
    requires undone == Rollback(s.db, s.clients[c].undo)
    ensures undone.accounts.Keys == base.accounts.Keys
    ensures forall k :: k in base.accounts && Holds(s.locks, c, k) ==> undone.accounts[k] == base.accounts[k]
    ensures forall k :: k in base.accounts && !Holds(s.locks, c, k) ==> undone.accounts[k] == s.db.accounts[k]
    ensures undone.ledger == if |s.clients[c].undo| == 3 then s.db.ledger - {job.txn} else s.db.ledger
  {
    var n := |s.clients[c].undo|;
    if n > 0 {
      assert Cleared(base, s.locks, job, c);
      RollbackEffect(s.db, base.accounts, job, n);
    }
    hide ClientOk, Written, UndoPlan;
  }

  lemma RollbackTables(s: State, base: Db, c: nat, job: Job, e: Outcome)
    requires Inv(s, base) && c < |s.clients| && s.clients[c].phase.Raised? && s.clients[c].todo != []
    requires job == s.clients[c].todo[0]
    ensures Lets(s, base, RollbackStep(s, c, job, e), base, c)
  {
    assert OwnOk(s, base, s.clients[c], c);
    RollbackDb(s, base, c, job, Rollback(s.db, s.clients[c].undo));
    assert |s.clients[c].undo| == 3 ==> Holds(s.inserts, c, job.txn);
    assert InRange(base.accounts) && s.db.accounts.Keys == base.accounts.Keys;
    hide Inv, OwnOk, ClientOk, Rollback;
  }

  lemma WithoutOwnRow(s: State, base: Db, s': State, c: nat, gone: set<Key>)
    requires LedgerOk(s, base)
    requires s'.inserts == Release(s.inserts, c) && s'.db.ledger == s.db.ledger - gone
    requires forall t :: t in gone <==> Holds(s.inserts, c, t)
    ensures LedgerOk(s', base)
  {
    assert forall t :: t in s.inserts && t !in gone ==> t in s'.inserts;
  }

  lemma RollbackLedger(s: State, base: Db, c: nat, job: Job, e: Outcome)
    requires Inv(s, base) && c < |s.clients| && s.clients[c].phase.Raised? && s.clients[c].todo != []
    requires job == s.clients[c].todo[0]
    ensures LedgerOk(RollbackStep(s, c, job, e), base)
  {
    assert OwnOk(s, base, s.clients[c], c);
    RollbackDb(s, base, c, job, Rollback(s.db, s.clients[c].undo));
    var gone := if |s.clients[c].undo| == 3 then {job.txn} else {};
    assert forall t :: t in gone ==> Holds(s.inserts, c, t);
    assert RollbackStep(s, c, job, e).db.ledger == s.db.ledger - gone;
    hide ClientOk, Rollback, RowIs, LedgerOk;
    WithoutOwnRow(s, base, RollbackStep(s, c, job, e), c, gone);
  }

  /** A rollback restores exactly its own rows: relative to the same base, the state is as if the call never ran. */
  lemma RollbackKeeps(s: State, base: Db, c: nat, job: Job, e: Outcome)
    requires Inv(s, base) && c < |s.clients| && s.clients[c].phase == Raised(e) && s.clients[c].todo != []
    requires job == s.clients[c].todo[0]
    ensures Accident(e) || Attempt(base, job) == (base, e)
    ensures Inv(RollbackStep(s, c, job, e), base)
  {
    assert OwnOk(s, base, s.clients[c], c);
    var s' := RollbackStep(s, c, job, e);
    EndedClient(base, s.locks, s.inserts, s.clients[c], c, base, s'.locks, s'.inserts, e);
    RollbackTables(s, base, c, job, e);
    RollbackLedger(s, base, c, job, e);
    hide Inv, LedgerOk, OwnOk, Lets;
    ReleaseKeeps(s, base, s', base, c);
  }

  // ----- every step -----

  /** The serial database after a step: it moves only when the step adds a decided call to the history. */
  function NextBase(base: Db, s: State, s': State): Db
  {
    if |s'.log| == |s.log| + 1 then Absorb(base, s'.log[|s.log|]) else base
  }

  /** The step adds nothing to the history, or adds one call whose answer the serial run confirms. */
  ghost predicate Explained(base: Db, s: State, s': State)
  {
    || s'.log == s.log
    || (&& |s'.log| == |s.log| + 1 && s'.log == s.log + [s'.log[|s.log|]]
        && var e := s'.log[|s.log|]; Accident(e.outcome) || Attempt(base, e.job).1 == e.outcome)
  }

  lemma OuterKeeps(s: State, base: Db, c: nat, s': State)
    requires Inv(s, base) && c < |s.clients| && Step(s, Choice(c, false)) == Some(s')
    requires var p := s.clients[c].phase; p.Idle? || p.Waiting? || p.Connected? || p.Ended?
    ensures Explained(base, s, s') && Inv(s', NextBase(base, s, s'))
  {
    assert OwnOk(s, base, s.clients[c], c);
    hide Inv, Moved;
    QuietKeeps(s, base, s', c);
  }

  lemma AdvanceKeeps(s: State, base: Db, c: nat, s': State)
    requires Inv(s, base) && c < |s.clients| && Step(s, Choice(c, false)) == Some(s')
    ensures Explained(base, s, s') && Inv(s', NextBase(base, s, s'))
  {
    hide Inv;
    var cl := s.clients[c];
    match cl.phase
    case Idle => OuterKeeps(s, base, c, s');
    case Waiting => OuterKeeps(s, base, c, s');
    case Connected => OuterKeeps(s, base, c, s');
    case Ended(_) => OuterKeeps(s, base, c, s');
    case Began => FirstLockKeeps(s, base, c, s');
    case FirstLocked(_) => SecondLockKeeps(s, base, c, s');
    case BothLocked(_, _) => CheckKeeps(s, base, c, s');
    case Checked => DebitKeeps(s, base, c, cl.todo[0]);
    case Debited => CreditKeeps(s, base, c, cl.todo[0]);
    case Credited => InsertKeeps(s, base, c, cl.todo[0]);
    case Recorded => CommitKeeps(s, base, c, cl.todo[0]);
    case Raised(e) => RollbackKeeps(s, base, c, cl.todo[0], e);
  }

  lemma FaultKeeps(s: State, base: Db, c: nat, s': State)
    requires Inv(s, base) && c < |s.clients| && Step(s, Choice(c, true)) == Some(s')
    ensures Explained(base, s, s') && Inv(s', NextBase(base, s, s'))
  {
    if s.clients[c].phase.Waiting? {
      assert OwnOk(s, base, s.clients[c], c);
      hide Inv;
      QuietKeeps(s, base, s', c);
    } else {
      hide Inv;
      RaiseKeeps(s, base, c, DriverError);
    }
  }
}
