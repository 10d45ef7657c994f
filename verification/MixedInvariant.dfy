/** What every step of the mixed machine keeps, relative to the serial database `base`. */
module MixedInvariant {
  import opened Bank
  import opened Books
  import opened MixedMachine
  import TransferMachine
  import TransferInvariant

  lemma SameDb(a: Db, b: Db)
    requires forall r :: Get(a, r) == Get(b, r)
    ensures a == b
  {
    forall k ensures k in a.accounts <==> k in b.accounts { assert Get(a, Acc(k)) == Get(b, Acc(k)); }
    forall k | k in a.accounts ensures a.accounts[k] == b.accounts[k] { assert Get(a, Acc(k)) == Get(b, Acc(k)); }
    forall t ensures t in a.ledger <==> t in b.ledger { assert Get(a, Led(t)) == Get(b, Led(t)); }
    forall t | t in a.ledger ensures a.ledger[t] == b.ledger[t] { assert Get(a, Led(t)) == Get(b, Led(t)); }
  }

  // ----- what a client's own writes have done so far -----

  /** Both rows exist and are locked, and the actor may send from the first. */
  ghost predicate Cleared(base: Db, own: set<Res>, job: Job)
  {
    && job.sender in base.accounts && job.receiver in base.accounts
    && Allowed(job.actor, base.accounts[job.sender])
    && Acc(job.sender) in own && Acc(job.receiver) in own
  }

  function MoveDb(base: Db, job: Job, n: nat): Db
    requires n > 0 ==> job.sender in base.accounts && job.receiver in base.accounts
  {
    Db(TransferInvariant.Written(base.accounts, job, n),
       if n < 3 then base.ledger else base.ledger[job.txn := RowOf(job)])
  }

  /** The working tables show the client's own writes under its locks, and those writes are nowhere else. */
  ghost predicate Shows(db: Db, base: Db, own: set<Res>, mine: Db)
  {
    && (forall r :: r in own ==> Get(db, r) == Get(mine, r))
    && (forall r :: r !in own ==> Get(mine, r) == Get(base, r))
  }

  // ----- a transfer -----

  ghost predicate Saw(base: Db, own: set<Res>, peek: set<Res>, k: Key, row: Option<Account>)
  {
    row == TransferMachine.Lookup(base.accounts, k) && Acc(k) in if row == None then peek else own
  }

  /** The serial run's refusal, on rows and gaps that stay locked until the rollback. */
  ghost predicate RefusalHeld(base: Db, own: set<Res>, peek: set<Res>, job: Job, o: Outcome)
  {
    && Refusal(base, job) == Some(o)
    && match o
       case SenderMissing => Acc(job.sender) in peek
       case ReceiverMissing => Acc(job.sender) in own && Acc(job.receiver) in peek
       case Forbidden => Acc(job.sender) in own && Acc(job.receiver) in own
       case Duplicate => Cleared(base, own, job) && Led(job.txn) in own
       case _ => Cleared(base, own, job)
  }

  ghost predicate MovePhase(base: Db, own: set<Res>, peek: set<Res>, job: Job, phase: Phase, writes: nat)
  {
    match phase
    case Idle => false
    case Began => writes == 0
    case FirstLocked(r1) => writes == 0 && Saw(base, own, peek, job.First(), r1)
    case BothLocked(r1, r2) =>
      writes == 0 && Saw(base, own, peek, job.First(), r1) && Saw(base, own, peek, job.Second(), r2)
    case Checked => writes == 0 && Cleared(base, own, job)
    case Debited => writes == 1
    case Credited => writes == 2
    case Wrote(reply) => writes == 3 && reply == Transferred(Done(RowOf(job)))
    case Raised(None) => true
    case Raised(Some(reply)) => reply.Transferred? && RefusalHeld(base, own, peek, job, reply.outcome)
  }

  ghost predicate MoveUndo(base: Db, own: set<Res>, job: Job, undo: seq<Undo>)
  {
    && |undo| <= 3
    && (|undo| > 0 ==>
          && Cleared(base, own, job) && base.accounts[job.sender].balance >= job.amount
          && undo == TransferInvariant.UndoPlan(base.accounts, job)[..|undo|])
    && (|undo| > 1 ==> Fits(base.accounts, job))
    && (|undo| > 2 ==> Led(job.txn) in own && job.txn !in base.ledger)
  }

  ghost predicate MoveInv(db: Db, base: Db, own: set<Res>, peek: set<Res>, job: Job, phase: Phase, undo: seq<Undo>)
  {
    && job.amount > 0 && !job.sameSpelling
    && MoveUndo(base, own, job, undo) && MovePhase(base, own, peek, job, phase, |undo|)
    && Shows(db, base, own, MoveDb(base, job, |undo|))
  }

  // ----- an operation of one statement -----

  ghost predicate Claims(base: Db, held: set<Res>, op: Op)
  {
    forall r :: Interest(op, r, base) ==> r in held
  }

  ghost predicate SingleInv(db: Db, base: Db, own: set<Res>, peek: set<Res>, op: Op, phase: Phase, undo: seq<Undo>)
  {
    && !op.Move?
    && (undo != [] ==> Apply(base, op).1 == Fine && undo == [UndoFor(base, op)] && Claims(base, own + peek, op))
    && Shows(db, base, own, if undo == [] then base else Apply(base, op).0)
    && match phase
       case Began => undo == [] && own == {} && peek == {}
       case Wrote(reply) => undo != [] && reply == Fine
       case Raised(None) => true
       case Raised(Some(reply)) => undo == [] && Apply(base, op) == (base, reply) && Claims(base, own + peek, op)
       case _ => false
  }

  // ----- every client -----

  ghost predicate ClientInv(db: Db, base: Db, own: set<Res>, peek: set<Res>, cl: Client)
  {
    if cl.phase.Idle? then cl.undo == [] && own == {} && peek == {}
    else
      && cl.todo != []
      && (forall r :: r in peek ==> Get(base, r) == None)
      && match cl.todo[0]
         case Move(job) => MoveInv(db, base, own, peek, job, cl.phase, cl.undo)
         case op => SingleInv(db, base, own, peek, op, cl.phase, cl.undo)
  }

  ghost predicate LocksOk(s: State)
  {
    && (forall r :: r in s.locks ==> s.locks[r] < |s.clients|)
    && (forall g :: g in s.gaps ==> g.client < |s.clients|)
    && (forall g :: g in s.gaps && g.res in s.locks ==> s.locks[g.res] == g.client)
  }

  ghost predicate Inv(s: State, base: Db)
  {
    && InRange(base.accounts) && LocksOk(s)
    && (forall r :: r !in s.locks ==> Get(s.db, r) == Get(base, r))
    && (forall c :: 0 <= c < |s.clients| ==> ClientInv(s.db, base, Own(s, c), Peek(s, c), s.clients[c]))
  }

  // ----- one frame for all steps -----

  /** No ledger row newly refers to an account whose key is held. */
  ghost predicate NoNewTouch(base: Db, base': Db, held: set<Res>)
  {
    forall t, id :: t in base'.ledger && Touches(base'.ledger[t], id) && Acc(id) in held ==>
      t in base.ledger && Touches(base.ledger[t], id)
  }

  /** From where a client with these locks looks, nothing has changed. */
  ghost predicate Quiet(db: Db, base: Db, db': Db, base': Db, own: set<Res>, peek: set<Res>)
  {
    && (forall r :: r in own ==> Get(db', r) == Get(db, r))
    && (forall r :: r in own + peek ==> Get(base', r) == Get(base, r))
    && NoNewTouch(base, base', own + peek)
  }

  lemma GetAccount(a: Db, b: Db, k: Key)
    requires Get(a, Acc(k)) == Get(b, Acc(k))
    ensures k in a.accounts <==> k in b.accounts
    ensures k in a.accounts ==> a.accounts[k] == b.accounts[k]
  {
  }

  lemma GetRow(a: Db, b: Db, t: Key)
    requires Get(a, Led(t)) == Get(b, Led(t))
    ensures t in a.ledger <==> t in b.ledger
    ensures t in a.ledger ==> a.ledger[t] == b.ledger[t]
  {
  }

  /** A transfer's writes are to its two accounts and its ledger row, and depend on nothing else. */
  lemma MoveDbLocal(base: Db, base': Db, job: Job, n: nat, r: Res)
    requires n <= 3
    requires n > 0 ==> job.sender in base.accounts && job.receiver in base.accounts
    requires n > 0 ==> Get(base', Acc(job.sender)) == Get(base, Acc(job.sender))
    requires n > 0 ==> Get(base', Acc(job.receiver)) == Get(base, Acc(job.receiver))
    ensures n > 0 ==> job.sender in base'.accounts && job.receiver in base'.accounts
    ensures Get(base', r) == Get(base, r) ==> Get(MoveDb(base', job, n), r) == Get(MoveDb(base, job, n), r)
    ensures n == 0 || (r != Acc(job.sender) && r != Acc(job.receiver) && (n < 3 || r != Led(job.txn))) ==>
              Get(MoveDb(base', job, n), r) == Get(base', r)
  {
  }

  lemma HeldSame(base: Db, base': Db, held: set<Res>)
    requires forall r :: r in held ==> Get(base', r) == Get(base, r)
    ensures forall k :: Acc(k) in held ==> (k in base.accounts <==> k in base'.accounts)
    ensures forall k :: Acc(k) in held && k in base.accounts ==> base'.accounts[k] == base.accounts[k]
    ensures forall t :: Led(t) in held ==> (t in base.ledger <==> t in base'.ledger)
  {
    forall k | Acc(k) in held ensures Get(base', Acc(k)) == Get(base, Acc(k)) {
    }
    forall t | Led(t) in held ensures Get(base', Led(t)) == Get(base, Led(t)) {
    }
  }

  lemma MoveFacts(base: Db, base': Db, own: set<Res>, peek: set<Res>, job: Job, phase: Phase, undo: seq<Undo>)
    requires MoveUndo(base, own, job, undo) && MovePhase(base, own, peek, job, phase, |undo|)
    requires forall k :: Acc(k) in own + peek ==> (k in base.accounts <==> k in base'.accounts)
    requires forall k :: Acc(k) in own + peek && k in base.accounts ==> base'.accounts[k] == base.accounts[k]
    requires forall t :: Led(t) in own + peek ==> (t in base.ledger <==> t in base'.ledger)
    requires forall r :: r in peek ==> Get(base, r) == None
    requires job.amount > 0 && !job.sameSpelling
    ensures MoveUndo(base', own, job, undo) && MovePhase(base', own, peek, job, phase, |undo|)
  {
  }

  lemma MoveShows(db: Db, base: Db, db': Db, base': Db, own: set<Res>, job: Job, n: nat)
    requires n <= 3
    requires n > 0 ==> job.sender in base.accounts && job.receiver in base.accounts
    requires n > 0 ==> job.sender in base'.accounts && job.receiver in base'.accounts
    requires n > 0 ==> Acc(job.sender) in own && Acc(job.receiver) in own
    requires n > 2 ==> Led(job.txn) in own
    requires Shows(db, base, own, MoveDb(base, job, n))
    requires forall r :: r in own ==> Get(db', r) == Get(db, r) && Get(base', r) == Get(base, r)
    ensures Shows(db', base', own, MoveDb(base', job, n))
  {
    hide MoveDb;
    forall r ensures r in own ==> Get(db', r) == Get(MoveDb(base', job, n), r)
      ensures r !in own ==> Get(MoveDb(base', job, n), r) == Get(base', r)
    {
      MoveDbLocal(base, base', job, n, r);
    }
  }

  lemma MoveQuiet(db: Db, base: Db, db': Db, base': Db, own: set<Res>, peek: set<Res>, job: Job, phase: Phase,
                  undo: seq<Undo>)
    requires MoveInv(db, base, own, peek, job, phase, undo) && Quiet(db, base, db', base', own, peek)
    requires forall r :: r in peek ==> Get(base, r) == None
    ensures MoveInv(db', base', own, peek, job, phase, undo)
  {
    HeldSame(base, base', own + peek);
    MoveFacts(base, base', own, peek, job, phase, undo);
    hide MovePhase, MoveDb, Shows, Get;
    MoveShows(db, base, db', base', own, job, |undo|);
  }

  /** A single statement depends on the rows it is interested in, and changes nothing else. */
  lemma ApplyLocal(a: Db, b: Db, op: Op)
    requires !op.Move? && forall r :: Interest(op, r, a) || Interest(op, r, b) ==> Get(a, r) == Get(b, r)
    ensures forall r :: Interest(op, r, a) <==> Interest(op, r, b)
    ensures Apply(a, op).1 == Apply(b, op).1
    ensures Apply(a, op).1 == Fine ==> UndoFor(a, op) == UndoFor(b, op)
    ensures forall r :: Interest(op, r, a) ==> Get(Apply(a, op).0, r) == Get(Apply(b, op).0, r)
  {
    match op
    case Create(id, _, _, _) => GetAccount(a, b, id);
    case Adjust(id, _) => GetAccount(a, b, id);
    case Erase(t) => GetRow(a, b, t);
    case Close(id, _) => CloseLocal(a, b, op, id);
  }

  lemma CloseLocal(a: Db, b: Db, op: Op, id: Key)
    requires op.Close? && op.id == id
    requires forall r :: Interest(op, r, a) || Interest(op, r, b) ==> Get(a, r) == Get(b, r)
    ensures forall r :: Interest(op, r, a) <==> Interest(op, r, b)
    ensures Apply(a, op).1 == Apply(b, op).1
    ensures Apply(a, op).1 == Fine ==> UndoFor(a, op) == UndoFor(b, op)
    ensures forall r :: Interest(op, r, a) ==> Get(Apply(a, op).0, r) == Get(Apply(b, op).0, r)
  {
    assert Interest(op, Acc(id), a);
    GetAccount(a, b, id);
    forall t
      ensures t in a.ledger && Touches(a.ledger[t], id) <==> t in b.ledger && Touches(b.ledger[t], id)
      ensures t in a.ledger && Touches(a.ledger[t], id) ==> t in b.ledger && a.ledger[t] == b.ledger[t]
    {
      if Interest(op, Led(t), a) || Interest(op, Led(t), b) { GetRow(a, b, t); }
    }
    forall r ensures Interest(op, r, a) <==> Interest(op, r, b) {
      if r.Led? { assert Interest(op, r, a) <==> r.key in a.ledger && Touches(a.ledger[r.key], id); }
    }
  }

  lemma ApplyElsewhere(a: Db, op: Op)
    requires !op.Move?
    ensures forall r :: !Interest(op, r, a) ==> Get(Apply(a, op).0, r) == Get(a, r)
  {
  }

  lemma SingleQuiet(db: Db, base: Db, db': Db, base': Db, own: set<Res>, peek: set<Res>, op: Op, phase: Phase,
                    undo: seq<Undo>)
    requires SingleInv(db, base, own, peek, op, phase, undo) && Quiet(db, base, db', base', own, peek)
    ensures SingleInv(db', base', own, peek, op, phase, undo)
  {
    if Claims(base, own + peek, op) {
      ClaimsQuiet(base, base', own + peek, op);
      ApplyLocal(base, base', op);
      ApplyElsewhere(base, op);
      ApplyElsewhere(base', op);
    }
    hide Apply, Interest, Get, NoNewTouch;
  }

  lemma ClaimsQuiet(base: Db, base': Db, held: set<Res>, op: Op)
    requires !op.Move? && Claims(base, held, op) && NoNewTouch(base, base', held)
    requires forall r :: r in held ==> Get(base', r) == Get(base, r)
    ensures Claims(base', held, op)
    ensures forall r :: Interest(op, r, base) || Interest(op, r, base') ==> Get(base, r) == Get(base', r)
  {
    forall r | Interest(op, r, base') ensures Interest(op, r, base) {
      if op.Close? { assert Interest(op, Acc(op.id), base); }
    }
  }

  lemma ClientQuiet(db: Db, base: Db, db': Db, base': Db, own: set<Res>, peek: set<Res>, cl: Client)
    requires ClientInv(db, base, own, peek, cl) && Quiet(db, base, db', base', own, peek)
    ensures ClientInv(db', base', own, peek, cl)
  {
    hide MoveInv, SingleInv;
    if !cl.phase.Idle? {
      match cl.todo[0]
      case Move(job) => MoveQuiet(db, base, db', base', own, peek, job, cl.phase, cl.undo);
      case op => SingleQuiet(db, base, db', base', own, peek, op, cl.phase, cl.undo);
    }
    hide Get, NoNewTouch;
  }

  /** Rolling a client back puts the rows it has locked at their serial values, and touches no other. */
  lemma RollbackLocal(db: Db, base: Db, own: set<Res>, peek: set<Res>, cl: Client, r: Res)
    requires ClientInv(db, base, own, peek, cl)
    ensures Get(Rollback(db, cl.undo), r) == if r in own then Get(base, r) else Get(db, r)
  {
    if cl.undo != [] {
      match cl.todo[0]
      case Move(job) => MoveRollback(db, base, own, peek, job, cl.phase, cl.undo, r);
      case op => SingleRollback(db, base, own, peek, op, cl.phase, cl.undo, r);
    }
  }

  lemma MoveRollback(db: Db, base: Db, own: set<Res>, peek: set<Res>, job: Job, phase: Phase, undo: seq<Undo>, r: Res)
    requires MoveInv(db, base, own, peek, job, phase, undo) && undo != []
    ensures Get(Rollback(db, undo), r) == if r in own then Get(base, r) else Get(db, r)
  {
    var n := |undo|;
    assert Acc(job.sender) in own && Acc(job.receiver) in own;
    GetAccount(db, MoveDb(base, job, n), job.sender);
    GetAccount(db, MoveDb(base, job, n), job.receiver);
    TransferInvariant.RollbackEffect(db, base.accounts, job, n);
    MoveDbLocal(base, base, job, n, r);
    hide Rollback, MovePhase;
  }

  lemma SingleRollback(db: Db, base: Db, own: set<Res>, peek: set<Res>, op: Op, phase: Phase, undo: seq<Undo>, r: Res)
    requires SingleInv(db, base, own, peek, op, phase, undo) && undo != []
    ensures Get(Rollback(db, undo), r) == if r in own then Get(base, r) else Get(db, r)
  {
    var u := UndoFor(base, op);
    assert undo[..0] == [] && Rollback(db, undo) == Rollback(UndoOne(db, u), []);
    assert Rollback(db, undo) == UndoOne(db, u);
    hide Rollback;
    ApplyElsewhere(base, op);
    UndoSingle(db, base, own, op, r);
  }

  lemma UndoSingle(db: Db, base: Db, own: set<Res>, op: Op, r: Res)
    requires !op.Move? && Apply(base, op).1 == Fine && Shows(db, base, own, Apply(base, op).0)
    ensures Get(UndoOne(db, UndoFor(base, op)), r) == if r in own then Get(base, r) else Get(db, r)
  {
    assert r in own ==> Get(db, r) == Get(Apply(base, op).0, r);
    assert r !in own ==> Get(base, r) == Get(Apply(base, op).0, r);
    hide Shows;
  }

  // ----- steps that take locks and write -----

  /** Client c may lock these: no other client has one of them, as a row or, for the rows to be, as a gap. */
  ghost predicate Free(s: State, c: nat, rows: set<Res>, gaps: set<Res>)
  {
    && (forall r :: r in rows + gaps && r in s.locks ==> s.locks[r] == c)
    && (forall g :: g in s.gaps && g.client != c ==> g.res !in rows)
  }

  lemma WithLocks(s: State, c: nat, cl: Client, rows: set<Res>, gaps: set<Res>, d: nat)
    requires c < |s.clients| && Free(s, c, rows, gaps)
    ensures var s' := With(s, c, cl, rows, gaps);
            && Own(s', d) == (if d == c then Own(s, c) + rows else Own(s, d))
            && Peek(s', d) == (if d == c then Peek(s, c) + gaps else Peek(s, d))
  {
    var s' := With(s, c, cl, rows, gaps);
    forall r ensures r in Peek(s', d) <==> r in (if d == c then Peek(s, c) + gaps else Peek(s, d)) {
      assert r in Peek(s', d) <==> Gap(r, d) in s'.gaps;
      assert r in Peek(s, d) <==> Gap(r, d) in s.gaps;
    }
  }

  lemma TakeKeeps(s: State, base: Db, c: nat, cl: Client, rows: set<Res>, gaps: set<Res>, db: Db)
    requires Inv(s, base) && c < |s.clients| && Free(s, c, rows, gaps)
    requires forall r :: r !in Own(s, c) + rows ==> Get(db, r) == Get(s.db, r)
    requires ClientInv(db, base, Own(s, c) + rows, Peek(s, c) + gaps, cl)
    ensures Inv(With(s, c, cl, rows, gaps).(db := db), base)
  {
    var s' := With(s, c, cl, rows, gaps).(db := db);
    WithLocks(s, c, cl, rows, gaps, c);
    hide ClientInv, Get;
    forall d | 0 <= d < |s.clients| ensures ClientInv(s'.db, base, Own(s', d), Peek(s', d), s'.clients[d]) {
      WithLocks(s, c, cl, rows, gaps, d);
      if d != c { ClientQuiet(s.db, base, db, base, Own(s, d), Peek(s, d), s.clients[d]); }
    }
  }

  /** An unlocked row shows its serial value; so does a row of a client that has not written. */
  lemma Clean(s: State, base: Db, c: nat, r: Res)
    requires Inv(s, base) && c < |s.clients| && s.clients[c].undo == []
    requires r in s.locks ==> s.locks[r] == c
    ensures Get(s.db, r) == Get(base, r)
  {
    assert ClientInv(s.db, base, Own(s, c), Peek(s, c), s.clients[c]);
    assert r in s.locks ==> r in Own(s, c);
    hide Get;
  }

  /** A row that is there is nobody else's gap. */
  lemma NoGap(s: State, base: Db, c: nat, r: Res, d: nat)
    requires Inv(s, base) && Get(base, r) != None && d < |s.clients|
    ensures Gap(r, d) !in s.gaps
  {
    assert ClientInv(s.db, base, Own(s, d), Peek(s, d), s.clients[d]);
    assert Gap(r, d) in s.gaps ==> r in Peek(s, d);
    hide MoveInv, SingleInv, Get;
  }

  lemma LockKeeps(s: State, base: Db, c: nat, k: Key, next: Phase)
    requires Inv(s, base) && c < |s.clients| && s.clients[c].undo == []
    requires LockAccount(s, c, k, next).Some?
    requires var row := TransferMachine.Lookup(base.accounts, k);
             var own := Own(s, c) + if row == None then {} else {Acc(k)};
             var peek := Peek(s, c) + if row == None then {Acc(k)} else {};
             ClientInv(s.db, base, own, peek, s.clients[c].(phase := next))
    ensures Inv(LockAccount(s, c, k, next).value, base)
  {
    var cl, r := s.clients[c].(phase := next), Acc(k);
    Clean(s, base, c, r);
    GetAccount(s.db, base, k);
    if k in base.accounts {
      forall g | g in s.gaps && g.client != c ensures g.res != r {
        if g.res == r { assert g == Gap(r, g.client); NoGap(s, base, c, r, g.client); }
      }
      TakeKeeps(s, base, c, cl, {r}, {}, s.db);
      assert With(s, c, cl, {r}, {}).(db := s.db) == With(s, c, cl, {r}, {});
    } else {
      TakeKeeps(s, base, c, cl, {}, {r}, s.db);
      assert With(s, c, cl, {}, {r}).(db := s.db) == With(s, c, cl, {}, {r});
    }
  }

  /** A step that takes no lock. */
  lemma WriteKeeps(s: State, base: Db, c: nat, cl: Client, db: Db)
    requires Inv(s, base) && c < |s.clients|
    requires forall r :: r !in Own(s, c) ==> Get(db, r) == Get(s.db, r)
    requires ClientInv(db, base, Own(s, c), Peek(s, c), cl)
    ensures Inv(With(s, c, cl, {}, {}).(db := db), base)
  {
    hide Inv, ClientInv, Get;
    assert Own(s, c) + {} == Own(s, c) && Peek(s, c) + {} == Peek(s, c);
    TakeKeeps(s, base, c, cl, {}, {}, db);
  }

  lemma RaiseKeeps(s: State, base: Db, c: nat, phase: Phase)
    requires Inv(s, base) && c < |s.clients|
    requires ClientInv(s.db, base, Own(s, c), Peek(s, c), s.clients[c].(phase := phase))
    ensures Inv(With(s, c, s.clients[c].(phase := phase), {}, {}), base)
  {
    hide Inv, ClientInv, Get;
    WriteKeeps(s, base, c, s.clients[c].(phase := phase), s.db);
    assert With(s, c, s.clients[c].(phase := phase), {}, {}).(db := s.db)
        == With(s, c, s.clients[c].(phase := phase), {}, {});
  }

  lemma FaultKeeps(s: State, base: Db, c: nat)
    requires Inv(s, base) && c < |s.clients| && Fault(s, c).Some?
    ensures Inv(Fault(s, c).value, base)
  {
    assert ClientInv(s.db, base, Own(s, c), Peek(s, c), s.clients[c]);
    hide Inv, Shows, Get;
    RaiseKeeps(s, base, c, Raised(None));
  }

  lemma CheckKeeps(s: State, base: Db, c: nat, job: Job)
    requires Inv(s, base) && c < |s.clients| && s.clients[c].phase.BothLocked?
    requires s.clients[c].todo != [] && s.clients[c].todo[0] == Move(job)
    ensures Inv(Check(s, c, job, s.clients[c].phase.row1, s.clients[c].phase.row2), base)
  {
    var cl := s.clients[c];
    assert ClientInv(s.db, base, Own(s, c), Peek(s, c), cl);
    var s' := Check(s, c, job, cl.phase.row1, cl.phase.row2);
    hide Inv, Shows, Get;
    RaiseKeeps(s, base, c, s'.clients[c].phase);
  }

  lemma LockStepKeeps(s: State, base: Db, c: nat, job: Job, s': State)
    requires Inv(s, base) && c < |s.clients| && (s.clients[c].phase.Began? || s.clients[c].phase.FirstLocked?)
    requires s.clients[c].todo != [] && s.clients[c].todo[0] == Move(job)
    requires MoveStep(s, c, job) == Some(s')
    ensures Inv(s', base)
  {
    var cl := s.clients[c];
    assert ClientInv(s.db, base, Own(s, c), Peek(s, c), cl);
    var k := if cl.phase.Began? then job.First() else job.Second();
    var row := TransferMachine.Lookup(s.db.accounts, k);
    var next := if cl.phase.Began? then FirstLocked(row) else BothLocked(cl.phase.row1, row);
    Clean(s, base, c, Acc(k));
    GetAccount(s.db, base, k);
    LockedRow(s.db, base, Own(s, c), Peek(s, c), job, cl.phase, k);
    hide Inv;
    LockKeeps(s, base, c, k, next);
  }

  /** The row just locked is the serial one. */
  lemma LockedRow(db: Db, base: Db, own: set<Res>, peek: set<Res>, job: Job, phase: Phase, k: Key)
    requires MoveInv(db, base, own, peek, job, phase, []) && Get(db, Acc(k)) == Get(base, Acc(k))
    requires (phase.Began? && k == job.First()) || (phase.FirstLocked? && k == job.Second())
    ensures var row := TransferMachine.Lookup(base.accounts, k);
            var own' := own + if row == None then {} else {Acc(k)};
            var peek' := peek + if row == None then {Acc(k)} else {};
            var next := if phase.Began? then FirstLocked(row) else BothLocked(phase.row1, row);
            MoveInv(db, base, own', peek', job, next, [])
  {
    hide Get;
  }

  lemma DebitKeeps(s: State, base: Db, c: nat, job: Job)
    requires Inv(s, base) && c < |s.clients| && s.clients[c].phase.Checked?
    requires s.clients[c].todo != [] && s.clients[c].todo[0] == Move(job)
    ensures Inv(DebitStep(s, c, job), base)
  {
    var cl, own := s.clients[c], Own(s, c);
    assert ClientInv(s.db, base, own, Peek(s, c), cl);
    assert Acc(job.sender) in own && InRange(base.accounts);
    Clean(s, base, c, Acc(job.sender));
    GetAccount(s.db, base, job.sender);
    hide Inv;
    if base.accounts[job.sender].balance < job.amount {
      RaiseKeeps(s, base, c, Raised(Some(Transferred(Insufficient))));
    } else {
      var u := Before(job.sender, s.db.accounts[job.sender]);
      var row := base.accounts[job.sender].(balance := base.accounts[job.sender].balance - job.amount);
      var db := Db(s.db.accounts[job.sender := row], s.db.ledger);
      assert 0 <= base.accounts[job.sender].balance <= MAX_CENTS && cl.undo + [u] == [u];
      assert DebitStep(s, c, job) == With(s, c, cl.(phase := Debited, undo := [u]), {}, {}).(db := db);
      DebitShows(s.db, base, own, Peek(s, c), job, db);
      WriteKeeps(s, base, c, cl.(phase := Debited, undo := [u]), db);
    }
  }

  lemma DebitShows(db: Db, base: Db, own: set<Res>, peek: set<Res>, job: Job, db': Db)
    requires MoveInv(db, base, own, peek, job, Checked, [])
    requires base.accounts[job.sender].balance >= job.amount
    requires db' == Db(db.accounts[job.sender := TransferInvariant.AfterDebit(base.accounts, job)[job.sender]],
                       db.ledger)
    ensures MoveInv(db', base, own, peek, job, Debited, [Before(job.sender, base.accounts[job.sender])])
    ensures forall r :: r !in own ==> Get(db', r) == Get(db, r)
  {
    var undo := [Before(job.sender, base.accounts[job.sender])];
    assert undo == TransferInvariant.UndoPlan(base.accounts, job)[..1];
  }

  lemma CreditKeeps(s: State, base: Db, c: nat, job: Job)
    requires Inv(s, base) && c < |s.clients| && s.clients[c].phase.Debited?
    requires s.clients[c].todo != [] && s.clients[c].todo[0] == Move(job)
    ensures Inv(CreditStep(s, c, job), base)
  {
    var cl, own := s.clients[c], Own(s, c);
    assert ClientInv(s.db, base, own, Peek(s, c), cl);
    assert Acc(job.receiver) in own && InRange(base.accounts);
    var a := TransferInvariant.AfterDebit(base.accounts, job);
    assert Get(s.db, Acc(job.receiver)) == Get(MoveDb(base, job, 1), Acc(job.receiver));
    GetAccount(s.db, MoveDb(base, job, 1), job.receiver);
    hide Inv;
    if !Fits(base.accounts, job) {
      RaiseKeeps(s, base, c, Raised(Some(Transferred(OutOfRange))));
    } else {
      var u := Before(job.receiver, s.db.accounts[job.receiver]);
      var row := a[job.receiver].(balance := a[job.receiver].balance + job.amount);
      var db := Db(s.db.accounts[job.receiver := row], s.db.ledger);
      assert CreditStep(s, c, job) == With(s, c, cl.(phase := Credited, undo := cl.undo + [u]), {}, {}).(db := db);
      CreditShows(s.db, base, own, Peek(s, c), job, cl.undo, db);
      WriteKeeps(s, base, c, cl.(phase := Credited, undo := cl.undo + [u]), db);
    }
  }

  lemma CreditShows(db: Db, base: Db, own: set<Res>, peek: set<Res>, job: Job, undo: seq<Undo>, db': Db)
    requires MoveInv(db, base, own, peek, job, Debited, undo) && Fits(base.accounts, job)
    requires db' == Db(db.accounts[job.receiver := TransferInvariant.AfterCredit(base.accounts, job)[job.receiver]],
                       db.ledger)
    ensures var u := Before(job.receiver, TransferInvariant.AfterDebit(base.accounts, job)[job.receiver]);
            MoveInv(db', base, own, peek, job, Credited, undo + [u])
    ensures forall r :: r !in own ==> Get(db', r) == Get(db, r)
  {
    var u := Before(job.receiver, TransferInvariant.AfterDebit(base.accounts, job)[job.receiver]);
    assert undo + [u] == TransferInvariant.UndoPlan(base.accounts, job)[..2];
  }

  lemma InsertKeeps(s: State, base: Db, c: nat, job: Job, s': State)
    requires Inv(s, base) && c < |s.clients| && s.clients[c].phase.Credited?
    requires s.clients[c].todo != [] && s.clients[c].todo[0] == Move(job)
    requires InsertStep(s, c, job) == Some(s')
    ensures Inv(s', base)
  {
    var cl, own, r := s.clients[c], Own(s, c), Led(job.txn);
    assert ClientInv(s.db, base, own, Peek(s, c), cl);
    assert r !in own ==> Get(s.db, r) == Get(base, r);
    if r in own { assert Get(s.db, r) == Get(MoveDb(base, job, 2), r); }
    GetRow(s.db, base, job.txn);
    hide Inv;
    InsertShows(s.db, base, own, Peek(s, c), job, cl.undo);
    assert Peek(s, c) + {} == Peek(s, c);
    if job.txn in s.db.ledger {
      var cl' := cl.(phase := Raised(Some(Transferred(Duplicate))));
      TakeKeeps(s, base, c, cl', {r}, {}, s.db);
      assert With(s, c, cl', {r}, {}).(db := s.db) == With(s, c, cl', {r}, {});
    } else {
      var cl' := cl.(phase := Wrote(Transferred(Done(RowOf(job)))), undo := cl.undo + [Inserted(job.txn)]);
      TakeKeeps(s, base, c, cl', {r}, {}, Db(s.db.accounts, s.db.ledger[job.txn := RowOf(job)]));
    }
  }

  lemma InsertShows(db: Db, base: Db, own: set<Res>, peek: set<Res>, job: Job, undo: seq<Undo>)
    requires MoveInv(db, base, own, peek, job, Credited, undo) && Get(db, Led(job.txn)) == Get(base, Led(job.txn))
    ensures job.txn in db.ledger ==>
              MoveInv(db, base, own + {Led(job.txn)}, peek, job, Raised(Some(Transferred(Duplicate))), undo)
    ensures job.txn !in db.ledger ==>
              MoveInv(Db(db.accounts, db.ledger[job.txn := RowOf(job)]), base, own + {Led(job.txn)}, peek, job,
                      Wrote(Transferred(Done(RowOf(job)))), undo + [Inserted(job.txn)])
    ensures forall r :: r != Led(job.txn) ==>
              Get(Db(db.accounts, db.ledger[job.txn := RowOf(job)]), r) == Get(db, r)
  {
    assert undo + [Inserted(job.txn)] == TransferInvariant.UndoPlan(base.accounts, job)[..3];
  }

  // ----- the one statement of the other operations -----

  lemma InterestAgrees(s: State, base: Db, c: nat, op: Op, r: Res)
    requires Inv(s, base) && c < |s.clients| && s.clients[c].phase.Began? && !Waits(s, c, op)
    requires Interest(op, r, s.db) || Interest(op, r, base)
    requires s.clients[c].todo != [] && s.clients[c].todo[0] == op && !op.Move?
    ensures r !in s.locks && Get(s.db, r) == Get(base, r)
  {
    assert ClientInv(s.db, base, Own(s, c), Peek(s, c), s.clients[c]);
    assert r in s.locks ==> !Contended(s, c, op, r);
    if r in s.locks {
      var d := s.locks[r];
      assert r in Own(s, d) && d != c;
      RollbackLocal(s.db, base, Own(s, d), Peek(s, d), s.clients[d], r);
      SameInterest(op, r, Rollback(s.db, s.clients[d].undo), base);
    }
  }

  lemma SameInterest(op: Op, r: Res, a: Db, b: Db)
    requires Get(a, r) == Get(b, r)
    ensures Interest(op, r, a) <==> Interest(op, r, b)
  {
  }

  lemma ExecuteKeeps(s: State, base: Db, c: nat, op: Op, s': State)
    requires Inv(s, base) && c < |s.clients| && s.clients[c].phase.Began?
    requires s.clients[c].todo != [] && s.clients[c].todo[0] == op && !op.Move?
    requires Execute(s, c, op) == Some(s')
    ensures Inv(s', base)
  {
    var cl, rows := s.clients[c], Rows(s.db, op);
    var gaps := Claimed(s.db, op) - rows;
    assert ClientInv(s.db, base, Own(s, c), Peek(s, c), cl);
    assert Own(s, c) == {} && Peek(s, c) == {};
    forall r | Interest(op, r, s.db) || Interest(op, r, base) ensures r !in s.locks && Get(s.db, r) == Get(base, r) {
      InterestAgrees(s, base, c, op, r);
    }
    ApplyLocal(s.db, base, op);
    ExecuteShows(s.db, base, op);
    ClaimedIsInterest(s.db, op);
    ApplyElsewhere(s.db, op);
    assert Free(s, c, rows, gaps);
    assert Own(s, c) + rows == rows && Peek(s, c) + gaps == gaps;
    var (db', reply) := Apply(s.db, op);
    hide Inv, Apply, Interest, Get, Claimed, SingleInv, Free, Waits;
    if reply == Fine {
      var cl' := cl.(phase := Wrote(Fine), undo := [UndoFor(s.db, op)]);
      TakeKeeps(s, base, c, cl', rows, gaps, db');
    } else {
      var cl' := cl.(phase := Raised(Some(reply)));
      TakeKeeps(s, base, c, cl', rows, gaps, s.db);
      assert With(s, c, cl', rows, gaps).(db := s.db) == With(s, c, cl', rows, gaps);
    }
  }

  lemma ClaimedIsInterest(db: Db, op: Op)
    requires !op.Move?
    ensures forall r :: r in Claimed(db, op) <==> Interest(op, r, db)
  {
  }

  lemma ExecuteShows(db: Db, base: Db, op: Op)
    requires !op.Move?
    requires forall r :: Interest(op, r, db) || Interest(op, r, base) ==> Get(db, r) == Get(base, r)
    ensures var rows := Rows(db, op);
            var gaps := Claimed(db, op) - rows;
            var (db', reply) := Apply(db, op);
            && (forall r :: r in gaps ==> Get(base, r) == None)
            && (forall r :: r !in rows ==> Get(db', r) == Get(db, r))
            && if reply == Fine then SingleInv(db', base, rows, gaps, op, Wrote(Fine), [UndoFor(db, op)])
               else SingleInv(db, base, rows, gaps, op, Raised(Some(reply)), [])
  {
    ApplyLocal(db, base, op);
    ApplyElsewhere(db, op);
    ApplyElsewhere(base, op);
    ClaimedIsInterest(db, op);
    if Apply(base, op).1 != Fine { RefusedUnchanged(base, op); RefusedUnchanged(db, op); }
    hide Apply, Interest, Get, Claimed, UndoFor;
  }

  lemma RefusedUnchanged(db: Db, op: Op)
    requires !op.Move? && Apply(db, op).1 != Fine
    ensures Apply(db, op).0 == db
  {
  }

  // ----- the end of the unit of work -----

  lemma FinishLocks(s: State, c: nat, answer: Option<Reply>, d: nat)
    requires c < |s.clients| && s.clients[c].todo != []
    ensures var s' := Finish(s, c, answer);
            && Own(s', d) == (if d == c then {} else Own(s, d)) && Peek(s', d) == (if d == c then {} else Peek(s, d))
  {
  }

  /** The serial tables move only under the client's own locks, and refer to no further account but those it holds. */
  ghost predicate Moves(base: Db, base': Db, own: set<Res>)
  {
    && InRange(base'.accounts)
    && (forall r :: r !in own ==> Get(base', r) == Get(base, r))
    && (forall t, id :: t in base'.ledger && Touches(base'.ledger[t], id) && Acc(id) !in own ==>
          t in base.ledger && Touches(base.ledger[t], id))
  }

  lemma FinishKeeps(s: State, base: Db, base': Db, c: nat, answer: Option<Reply>, db: Db)
    requires Inv(s, base) && c < |s.clients| && s.clients[c].todo != [] && Moves(base, base', Own(s, c))
    requires forall r :: Get(db, r) == if r in Own(s, c) then Get(base', r) else Get(s.db, r)
    ensures Inv(Finish(s.(db := db), c, answer), base')
  {
    var s' := Finish(s.(db := db), c, answer);
    FinishLocks(s.(db := db), c, answer, c);
    hide Get, ClientInv;
    forall d | 0 <= d < |s.clients| && d != c ensures ClientInv(db, base', Own(s', d), Peek(s', d), s'.clients[d]) {
      FinishLocks(s.(db := db), c, answer, d);
      Disjoint(s, c, d);
      ClientQuiet(s.db, base, db, base', Own(s, d), Peek(s, d), s.clients[d]);
    }
    assert ClientInv(db, base', Own(s', c), Peek(s', c), s'.clients[c]);
  }

  lemma Disjoint(s: State, c: nat, d: nat)
    requires LocksOk(s) && c != d
    ensures Own(s, c) !! Own(s, d) + Peek(s, d)
  {
  }
}
