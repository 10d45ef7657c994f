/** All writers of balances and ledger rows, in any order, and the books they keep. */
module Books {
  import opened Sums
  import opened Bank

  /** One service call; what other tables answer comes as a flag. */
  datatype Op =
    | Create(id: Key, customer: string, customerExists: bool, branchExists: bool)
    | Move(job: Job)
    | Adjust(id: Key, cents: int)
    | Close(id: Key, hasCards: bool)
    | Erase(txn: Key)

  /** Errors the server reports for a write, by the exception the driver raises for them. */
  datatype SqlError = DuplicateKey | NoParentRow | ChildRow | CheckViolation | OutOfColumnRange

  datatype Reply = Fine | NotFound | Conflict | BadRequest | Unhandled(error: SqlError) | Transferred(outcome: Outcome)

  /** Only integrity errors are translated; a CHECK failure and a range error reach the caller as they are. */
  function Guard(e: SqlError): Reply
  {
    match e
    case DuplicateKey => Conflict
    case NoParentRow => BadRequest
    case ChildRow => Conflict
    case CheckViolation => Unhandled(e)
    case OutOfColumnRange => Unhandled(e)
  }

  predicate Touches(row: Row, id: Key)
  {
    row.source == id || row.target == Some(id)
  }

  predicate Sends(ledger: map<Key, Row>, id: Key)
  {
    exists t :: t in ledger && ledger[t].source == id
  }

  /** ON DELETE SET NULL on the receiving side. */
  function Unlink(ledger: map<Key, Row>, id: Key): map<Key, Row>
  {
    map t | t in ledger :: if ledger[t].target == Some(id) then ledger[t].(target := None) else ledger[t]
  }

  function Apply(db: Db, op: Op): (Db, Reply)
  {
    match op
    case Create(id, customer, customerExists, branchExists) =>
      if id in db.accounts then (db, Guard(DuplicateKey))
      else if !customerExists || !branchExists then (db, Guard(NoParentRow))
      else (Db(db.accounts[id := Account(customer, 0)], db.ledger), Fine)
    case Move(job) => var (db', o) := Attempt(db, job); (db', Transferred(o))
    case Adjust(id, cents) =>
      (match WriteBalance(db.accounts, id, cents)
       case Refused(CheckFailed) => (db, Guard(CheckViolation))
       case Refused(_) => (db, Guard(OutOfColumnRange))
       case Changed(accounts, rows) => if rows == 0 then (db, NotFound) else (Db(accounts, db.ledger), Fine))
    case Close(id, hasCards) =>
      if id !in db.accounts then (db, NotFound)
      else if Sends(db.ledger, id) || hasCards then (db, Guard(ChildRow))
      else (Db(db.accounts - {id}, Unlink(db.ledger, id)), Fine)
    case Erase(txn) =>
      if txn !in db.ledger then (db, NotFound) else (Db(db.accounts, db.ledger - {txn}), Fine)
  }

  function Play(db: Db, ops: seq<Op>): Db
  {
    if ops == [] then db else Apply(Play(db, ops[..|ops| - 1]), ops[|ops| - 1]).0
  }

  /** The schema's constraints on what is stored: ranges, positive amounts, and both foreign keys. */
  ghost predicate Sound(db: Db)
  {
    && InRange(db.accounts)
    && forall t :: t in db.ledger ==>
         && db.ledger[t].amount > 0 && db.ledger[t].source in db.accounts
         && (db.ledger[t].target.Some? ==> db.ledger[t].target.value in db.accounts)
  }

  lemma ApplySound(db: Db, op: Op)
    requires Sound(db)
    ensures Sound(Apply(db, op).0)
  {
    if op.Move? {
      AttemptConserves(db, op.job);
      hide Moved;
    }
  }

  /** Constraints hold after any mixture of calls; so an account that a ledger row was paid from is never gone. */
  lemma {:induction false} PlaySound(db: Db, ops: seq<Op>)
    requires Sound(db)
    ensures Sound(Play(db, ops))
    ensures var end := Play(db, ops);
            && (forall k :: k in end.accounts ==> 0 <= end.accounts[k].balance <= 999_999_999_999_999)
            && (forall t :: t in end.ledger ==>
                  && end.ledger[t].amount > 0 && end.ledger[t].source in end.accounts
                  && (end.ledger[t].target == None || end.ledger[t].target.value in end.accounts))
  {
    if ops != [] {
      PlaySound(db, ops[..|ops| - 1]);
      ApplySound(Play(db, ops[..|ops| - 1]), ops[|ops| - 1]);
    }
  }

  // ----- one account's books -----

  /** What a ledger row says account a gained. */
  function Gain(a: Key): Row -> int
  {
    (r: Row) => (if r.target == Some(a) then r.amount else 0) - (if r.source == a then r.amount else 0)
  }

  ghost function Net(ledger: map<Key, Row>, a: Key): int
  {
    SumMap(ledger, Gain(a))
  }

  /** What the ledger alone does not explain: the starting difference, administrative changes, erased rows. */
  datatype Tally = Tally(opening: int, adjusted: int, erased: int)

  ghost function Opening(db: Db, a: Key): Tally
  {
    Tally(if a in db.accounts then db.accounts[a].balance - Net(db.ledger, a) else 0, 0, 0)
  }

  function Note(db: Db, op: Op, a: Key, t: Tally): Tally
  {
    if Apply(db, op).1 != Fine then t
    else
      match op
      case Create(id, _, _, _) => if id == a then Tally(0, 0, 0) else t
      case Adjust(id, cents) =>
        if id == a && a in db.accounts then t.(adjusted := t.adjusted + cents - db.accounts[a].balance) else t
      case Erase(txn) => if txn in db.ledger then t.(erased := t.erased + Gain(a)(db.ledger[txn])) else t
      case _ => t
  }

  ghost function Notes(db: Db, ops: seq<Op>, a: Key): Tally
  {
    if ops == [] then Opening(db, a)
    else
      var before := ops[..|ops| - 1];
      Note(Play(db, before), ops[|ops| - 1], a, Notes(db, before, a))
  }

  ghost predicate Reconciles(db: Db, a: Key, t: Tally)
  {
    a in db.accounts ==> db.accounts[a].balance == t.opening + t.adjusted + t.erased + Net(db.ledger, a)
  }

  lemma NetOfStranger(db: Db, a: Key)
    requires Sound(db) && a !in db.accounts
    ensures Net(db.ledger, a) == 0
  {
    SumMapZero(db.ledger, Gain(a));
  }

  lemma StepReconciles(db: Db, op: Op, a: Key, t: Tally)
    requires Sound(db) && Reconciles(db, a, t)
    ensures Reconciles(Apply(db, op).0, a, Note(db, op, a, t))
  {
    var (db', reply) := Apply(db, op);
    match op
    case Create(id, _, _, _) =>
      if id == a && a !in db.accounts { NetOfStranger(db, a); }
    case Move(job) =>
      if reply.outcome.Done? { SumMapUpdate(db.ledger, Gain(a), job.txn, RowOf(job)); }
    case Adjust(_, _) =>
    case Close(id, _) =>
      if reply == Fine && a != id { SumMapSame(db.ledger, Gain(a), db'.ledger, Gain(a)); }
    case Erase(txn) =>
      if reply == Fine { SumMapRemove(db.ledger, Gain(a), txn); }
  }

  /**
   * Reconciliation. After any mixture of account creations, transfers, balance changes, closures and ledger
   * deletions, each live account's balance is its opening difference plus its administrative changes plus what the
   * remaining ledger rows say it gained, corrected by exactly what the deleted rows said it gained.
   */
  lemma {:induction false} BooksReconcile(db: Db, ops: seq<Op>, a: Key)
    requires Sound(db)
    ensures Reconciles(Play(db, ops), a, Notes(db, ops, a))
  {
    if ops != [] {
      var before := ops[..|ops| - 1];
      BooksReconcile(db, before, a);
      PlaySound(db, before);
      StepReconciles(Play(db, before), ops[|ops| - 1], a, Notes(db, before, a));
    }
  }

  ghost function BalanceAt(db: Db, a: Key): int
  {
    if a in db.accounts then db.accounts[a].balance else 0
  }

  /** By how much the balance changes of `after` moved account a, one call at a time. */
  ghost function ByDecree(db: Db, before: seq<Op>, after: seq<Op>, a: Key): int
  {
    if after == [] then 0
    else
      var sofar, op := after[..|after| - 1], after[|after| - 1];
      ByDecree(db, before, sofar, a)
      + if op.Adjust? then BalanceAt(Play(db, before + after), a) - BalanceAt(Play(db, before + sofar), a) else 0
  }

  /** By how much the ledger deletions of `after` lowered what the ledger says a gained. */
  ghost function ByErasure(db: Db, before: seq<Op>, after: seq<Op>, a: Key): int
  {
    if after == [] then 0
    else
      var sofar, op := after[..|after| - 1], after[|after| - 1];
      ByErasure(db, before, sofar, a)
      + if op.Erase? then Net(Play(db, before + sofar).ledger, a) - Net(Play(db, before + after).ledger, a) else 0
  }

  /**
   * What the notes say: while account a exists, they take up exactly what balance changes did to it and what ledger
   * deletions did to its sum of rows, and nothing else; an account just created starts from nothing.
   */
  lemma {:induction false} NotesExactly(db: Db, before: seq<Op>, after: seq<Op>, a: Key)
    requires forall i :: 0 <= i <= |after| ==> a in Play(db, before + after[..i]).accounts
    ensures var t := Notes(db, before, a);
            Notes(db, before + after, a) ==
            Tally(t.opening, t.adjusted + ByDecree(db, before, after, a), t.erased + ByErasure(db, before, after, a))
    decreases |after|
  {
    if after == [] {
      assert before + after == before;
    } else {
      var sofar, op := after[..|after| - 1], after[|after| - 1];
      var ops := before + after;
      forall i | 0 <= i <= |sofar| ensures a in Play(db, before + sofar[..i]).accounts {
        assert sofar[..i] == after[..i];
      }
      assert ops[..|ops| - 1] == before + sofar && ops[|ops| - 1] == op;
      assert after[..|after|] == after && sofar[..|sofar|] == sofar;
      assert Play(db, ops) == Apply(Play(db, before + sofar), op).0;
      assert Notes(db, ops, a) == Note(Play(db, before + sofar), op, a, Notes(db, before + sofar, a));
      hide Play, Notes, Apply, Note, BalanceAt, Net;
      NotesExactly(db, before, sofar, a);
      NoteExactly(Play(db, before + sofar), op, a, Notes(db, before + sofar, a));
    }
  }

  lemma NoteExactly(db: Db, op: Op, a: Key, t: Tally)
    requires a in db.accounts && a in Apply(db, op).0.accounts
    ensures var db' := Apply(db, op).0;
            Note(db, op, a, t) ==
            Tally(t.opening,
                  t.adjusted + (if op.Adjust? then BalanceAt(db', a) - BalanceAt(db, a) else 0),
                  t.erased + (if op.Erase? then Net(db.ledger, a) - Net(db'.ledger, a) else 0))
  {
    if op.Erase? && op.txn in db.ledger { SumMapRemove(db.ledger, Gain(a), op.txn); }
  }

  lemma NewAccountStartsFromNothing(db: Db, ops: seq<Op>, a: Key, customer: string)
    requires a !in Play(db, ops).accounts
    ensures Notes(db, ops + [Create(a, customer, true, true)], a) == Tally(0, 0, 0)
  {
    assert (ops + [Create(a, customer, true, true)])[..|ops|] == ops;
  }

  // ----- the whole bank -----

  /** Money an operation puts in (or takes out) by decree. */
  function Injected(db: Db, op: Op): int
  {
    if Apply(db, op).1 != Fine then 0
    else
      match op
      case Adjust(id, cents) => if id in db.accounts then cents - db.accounts[id].balance else 0
      case Close(id, _) => if id in db.accounts then -db.accounts[id].balance else 0
      case _ => 0
  }

  function AllInjected(db: Db, ops: seq<Op>): int
  {
    if ops == [] then 0
    else AllInjected(db, ops[..|ops| - 1]) + Injected(Play(db, ops[..|ops| - 1]), ops[|ops| - 1])
  }

  /**
   * Whole-bank accounting: the total moves only by `set_balance` differences and by the balances of closed accounts;
   * transfers, account creations and ledger deletions never change it.
   */
  lemma {:induction false} BankTotal(db: Db, ops: seq<Op>)
    ensures Total(Play(db, ops).accounts) == Total(db.accounts) + AllInjected(db, ops)
  {
    if ops != [] {
      BankTotal(db, ops[..|ops| - 1]);
      ApplyTotal(Play(db, ops[..|ops| - 1]), ops[|ops| - 1]);
    }
  }

  lemma ApplyTotal(db: Db, op: Op)
    ensures Total(Apply(db, op).0.accounts) == Total(db.accounts) + Injected(db, op)
  {
    match op
    case Create(id, customer, _, _) => SumMapUpdate(db.accounts, Balance(), id, Account(customer, 0));
    case Move(job) => AttemptConserves(db, job);
    case Adjust(id, cents) => if id in db.accounts { TotalWrite(db.accounts, id, cents); }
    case Close(id, _) => if id in db.accounts { SumMapRemove(db.accounts, Balance(), id); }
    case Erase(_) =>
  }

  /** Creation: a taken id conflicts, a missing customer or branch is a bad request, else an empty account is there. */
  lemma CreationExactly(db: Db, id: Key, customer: string, customerExists: bool, branchExists: bool)
    ensures var r := Apply(db, Create(id, customer, customerExists, branchExists));
            && (id in db.accounts ==> r == (db, Conflict))
            && (id !in db.accounts && customerExists && branchExists ==>
                  r == (Db(db.accounts[id := Account(customer, 0)], db.ledger), Fine))
            && (id !in db.accounts && !(customerExists && branchExists) ==> r == (db, BadRequest))
  {
  }

  /**
   * Deletion of an account: it succeeds exactly if the account is there, no card was issued for it and no ledger row
   * was paid from it; then the account alone is gone and exactly its incoming rows have lost their receiver.
   */
  lemma DeletionExactly(db: Db, id: Key, hasCards: bool)
    ensures var (db', reply) := Apply(db, Close(id, hasCards));
            && (reply == Fine <==>
                  id in db.accounts && !hasCards && forall t :: t in db.ledger ==> db.ledger[t].source != id)
            && (reply == NotFound <==> id !in db.accounts)
            && (reply == Fine || reply == NotFound || reply == Conflict)
            && (reply != Fine ==> db' == db)
            && (reply == Fine ==>
                  && db'.accounts == (map k | k in db.accounts && k != id :: db.accounts[k])
                  && db'.ledger.Keys == db.ledger.Keys
                  && forall t :: t in db.ledger ==>
                       var row := db.ledger[t];
                       var unlinked := Row(row.source, None, row.kind, row.amount, row.at);
                       db'.ledger[t] == if row.target == Some(id) then unlinked else row)
  {
    if id in db.accounts && !Sends(db.ledger, id) && !hasCards {
      assert db.accounts - {id} == map k | k in db.accounts && k != id :: db.accounts[k];
    }
  }

  /** Setting a balance: exactly when it succeeds, and that it moves that balance only. */
  lemma AdjustmentExactly(db: Db, id: Key, cents: int)
    requires Sound(db)
    ensures var (db', reply) := Apply(db, Adjust(id, cents));
            && (reply == Fine <==>
                  id in db.accounts && 0 <= cents <= 999_999_999_999_999 && cents != db.accounts[id].balance)
            && (reply == Fine ==> db' == Db(db.accounts[id := Account(db.accounts[id].customer, cents)], db.ledger))
            && (reply != Fine ==> db' == db)
            && (reply == Unhandled(OutOfColumnRange) <==>
                  id in db.accounts && (cents > 999_999_999_999_999 || cents < -999_999_999_999_999))
  {
  }

  lemma ErasureExactly(db: Db, txn: Key)
    ensures var (db', reply) := Apply(db, Erase(txn));
            && (txn in db.ledger ==>
                  reply == Fine && db' == Db(db.accounts, map t | t in db.ledger && t != txn :: db.ledger[t]))
            && (txn !in db.ledger ==> reply == NotFound && db' == db)
  {
    assert db.ledger - {txn} == map t | t in db.ledger && t != txn :: db.ledger[t];
  }

  /**
   * The calls whose error reaches the caller as the driver raised it are exactly those that set an existing balance to
   * a negative one (the CHECK) or to one the column cannot hold; nothing is changed.
   */
  lemma UnhandledExactly(db: Db, op: Op)
    ensures Apply(db, op).1.Unhandled? <==>
              op.Adjust? && op.id in db.accounts && (op.cents < 0 || op.cents > MAX_CENTS)
    ensures Apply(db, op).1 == Unhandled(CheckViolation) <==>
              op.Adjust? && op.id in db.accounts && -MAX_CENTS <= op.cents < 0
    ensures Apply(db, op).1.Unhandled? ==> Apply(db, op).0 == db
  {
  }

  /**
   * "Account not found" from `set_balance` means just that unless the new balance is the old one, when the account
   * is there and the server still reports no row changed.
   */
  lemma NotFoundOnAdjust(db: Db, id: Key, cents: int)
    requires Sound(db)
    ensures Apply(db, Adjust(id, cents)).1 == NotFound <==> id !in db.accounts || db.accounts[id].balance == cents
    ensures Apply(db, Adjust(id, cents)).1 == NotFound ==> Apply(db, Adjust(id, cents)).0 == db
  {
  }
}
