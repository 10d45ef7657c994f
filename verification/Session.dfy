/** The services as they are written: a pooled connection, a unit of work around a body, and driver errors anywhere. */
module Session {
  import opened Bank
  import opened Books
  import opened TransferMachine
  import opened TransferRequests

  /** What can interrupt a body: the driver, an error the server reports, or one the service raises. */
  datatype Exception = Driver | Sql(error: SqlError) | Service(reply: Reply)

  /** A value, or an exception on its way up. */
  datatype Result<+T> = Ok(value: T) | Raise(error: Exception)
  {
    predicate IsFailure() { Raise? }

    function PropagateFailure<U>(): Result<U>
      requires Raise?
    {
      Raise(error)
    }

    function Extract(): T
      requires Ok?
    {
      value
    }
  }

  /** The driver's name for what an UPDATE on balances is refused for. */
  function AsSql(o: Outcome): SqlError
  {
    if o == CheckFailed then CheckViolation else OutOfColumnRange
  }

  class Database {
    var accounts: map<Key, Account>
    var ledger: map<Key, Row>

    constructor (accounts: map<Key, Account>, ledger: map<Key, Row>)
      ensures Contents() == Db(accounts, ledger)
    {
      this.accounts, this.ledger := accounts, ledger;
    }

    function Contents(): Db
      reads this
    {
      Db(accounts, ledger)
    }
  }

  /** The bounded pool; taking from an empty one is where a real caller would wait. */
  class Pool {
    var free: nat

    constructor (size: nat)
      ensures free == size
    {
      free := size;
    }

    method Take() returns (taken: bool)
      modifies this
      ensures taken == (old(free) > 0) && free == (if taken then old(free) - 1 else old(free))
    {
      taken := free > 0;
      if taken {
        free := free - 1;
      }
    }

    method Return()
      modifies this
      ensures free == old(free) + 1
    {
      free := free + 1;
    }
  }

  /** One borrowed connection. The driver raises on call number `failAt`, never if that is 0. */
  class Connection {
    const db: Database
    const failAt: nat
    var calls: nat
    var undo: seq<Undo>

    constructor (db: Database, failAt: nat)
      ensures this.db == db && this.failAt == failAt && calls == 0 && undo == []
    {
      this.db, this.failAt, calls, undo := db, failAt, 0, [];
    }

    /** What a rollback would put back. */
    function Restored(): Db
      reads this, db
    {
      Bank.Rollback(db.Contents(), undo)
    }

    method Call() returns (ok: bool)
      modifies this`calls
      ensures calls == old(calls) + 1 && ok == (calls != failAt)
    {
      calls := calls + 1;
      ok := calls != failAt;
    }

    method Begin() returns (r: Result<()>)
      modifies this
      ensures calls == old(calls) + 1 && undo == (if r.Ok? then [] else old(undo))
      ensures r == if calls == failAt then Raise(Driver) else Ok(())
    {
      var ok := Call();
      if !ok { return Raise(Driver); }
      undo := [];
      r := Ok(());
    }

    method Commit() returns (r: Result<()>)
      modifies this
      ensures calls == old(calls) + 1 && undo == (if r.Ok? then [] else old(undo))
      ensures r == if calls == failAt then Raise(Driver) else Ok(())
    {
      var ok := Call();
      if !ok { return Raise(Driver); }
      undo := [];
      r := Ok(());
    }

    /** Takes the writes back, last first. */
    method Rollback()
      modifies this, db
      ensures db.Contents() == old(Restored()) && undo == [] && calls == old(calls)
    {
      while undo != []
        invariant Restored() == old(Restored()) && calls == old(calls)
        decreases |undo|
      {
        var before := UndoOne(db.Contents(), undo[|undo| - 1]);
        db.accounts, db.ledger := before.accounts, before.ledger;
        undo := undo[..|undo| - 1];
      }
    }

    /** SELECT by primary key; nobody else is here, so FOR UPDATE never waits. */
    method Fetch(k: Key) returns (r: Result<Option<Account>>)
      modifies this`calls
      ensures calls == old(calls) + 1
      ensures r == if calls == failAt then Raise(Driver) else Ok(Lookup(db.accounts, k))
    {
      var ok := Call();
      r := if ok then Ok(Lookup(db.accounts, k)) else Raise(Driver);
    }

    /** Puts the outcome of an UPDATE on row k in place and logs how to take it back. */
    method Write(k: Key, w: Write) returns (r: Result<nat>)
      requires w.Changed? ==>
          || w.accounts == db.accounts
          || (k in db.accounts && k in w.accounts && w.accounts == db.accounts[k := w.accounts[k]])
      modifies this, db
      ensures calls == old(calls) + 1 && Restored() == old(Restored())
      ensures calls == failAt ==> r == Raise(Driver) && db.Contents() == old(db.Contents())
      ensures calls != failAt && w.Refused? ==> r == Raise(Sql(AsSql(w.error))) && db.Contents() == old(db.Contents())
      ensures calls != failAt && w.Changed? ==> r == Ok(w.rows) && db.Contents() == Db(w.accounts, old(db.ledger))
    {
      var ok := Call();
      if !ok { return Raise(Driver); }
      match w
      case Refused(e) =>
        r := Raise(Sql(AsSql(e)));
      case Changed(accounts, rows) =>
        if k in db.accounts {
          assert accounts[k := db.accounts[k]] == db.accounts;
          Log(Before(k, db.accounts[k]), Db(accounts, db.ledger));
        }
        r := Ok(rows);
    }

    /** One more write, with the record that takes it back. */
    method Log(u: Undo, after: Db)
      requires UndoOne(after, u) == db.Contents()
      modifies this, db
      ensures db.Contents() == after && undo == old(undo) + [u] && calls == old(calls)
      ensures Restored() == old(Restored())
    {
      assert (undo + [u])[..|undo|] == undo;
      db.accounts, db.ledger := after.accounts, after.ledger;
      undo := undo + [u];
    }

    method InsertRow(t: Key, row: Row) returns (r: Result<()>)
      modifies this, db
      ensures calls == old(calls) + 1 && Restored() == old(Restored())
      ensures calls == failAt ==> r == Raise(Driver) && db.Contents() == old(db.Contents())
      ensures calls != failAt && t in old(db.ledger) ==>
          r == Raise(Sql(DuplicateKey)) && db.Contents() == old(db.Contents())
      ensures calls != failAt && t !in old(db.ledger) ==>
          r == Ok(()) && db.Contents() == Db(old(db.accounts), old(db.ledger)[t := row])
    {
      var ok := Call();
      if !ok { return Raise(Driver); }
      if t in db.ledger { return Raise(Sql(DuplicateKey)); }
      assert db.ledger[t := row] - {t} == db.ledger;
      Log(Inserted(t), Db(db.accounts, db.ledger[t := row]));
      r := Ok(());
    }

    method InsertAccount(id: Key, account: Account, parentsExist: bool) returns (r: Result<()>)
      modifies this, db
      ensures calls == old(calls) + 1 && Restored() == old(Restored())
      ensures calls == failAt ==> r == Raise(Driver)
      ensures calls != failAt && id in old(db.accounts) ==> r == Raise(Sql(DuplicateKey))
      ensures calls != failAt && id !in old(db.accounts) && !parentsExist ==> r == Raise(Sql(NoParentRow))
      ensures calls != failAt && id !in old(db.accounts) && parentsExist ==> r == Ok(())
      ensures db.Contents() == if r.Ok? then Db(old(db.accounts)[id := account], old(db.ledger)) else old(db.Contents())
    {
      var ok := Call();
      if !ok { return Raise(Driver); }
      if id in db.accounts { return Raise(Sql(DuplicateKey)); }
      if !parentsExist { return Raise(Sql(NoParentRow)); }
      assert db.accounts[id := account] - {id} == db.accounts;
      Log(Opened(id), Db(db.accounts[id := account], db.ledger));
      r := Ok(());
    }

    /** DELETE on an account: refused while a ledger row or card was issued by it, else receiving rows are unlinked. */
    method DeleteAccount(id: Key, hasCards: bool) returns (r: Result<nat>)
      modifies this, db
      ensures calls == old(calls) + 1 && Restored() == old(Restored())
      ensures calls == failAt ==> r == Raise(Driver)
      ensures calls != failAt && id !in old(db.accounts) ==> r == Ok(0)
      ensures calls != failAt && id in old(db.accounts) ==>
                r == if Sends(old(db.ledger), id) || hasCards then Raise(Sql(ChildRow)) else Ok(1)
      ensures db.Contents() ==
              if r == Ok(1) then Db(old(db.accounts) - {id}, Unlink(old(db.ledger), id)) else old(db.Contents())
    {
      var ok := Call();
      if !ok { return Raise(Driver); }
      if id !in db.accounts { return Ok(0); }
      if Sends(db.ledger, id) || hasCards { return Raise(Sql(ChildRow)); }
      var unlinked := map t | t in db.ledger && db.ledger[t].target == Some(id) :: db.ledger[t];
      assert (db.accounts - {id})[id := db.accounts[id]] == db.accounts;
      assert Unlink(db.ledger, id) + unlinked == db.ledger;
      Log(Closed(id, db.accounts[id], unlinked), Db(db.accounts - {id}, Unlink(db.ledger, id)));
      r := Ok(1);
    }

    method DeleteRow(t: Key) returns (r: Result<nat>)
      modifies this, db
      ensures calls == old(calls) + 1 && Restored() == old(Restored())
      ensures r == if calls == failAt then Raise(Driver) else Ok(if t in old(db.ledger) then 1 else 0)
      ensures db.Contents() == if r == Ok(1) then Db(old(db.accounts), old(db.ledger) - {t}) else old(db.Contents())
    {
      var ok := Call();
      if !ok { return Raise(Driver); }
      if t !in db.ledger { return Ok(0); }
      assert (db.ledger - {t})[t := db.ledger[t]] == db.ledger;
      Log(Erased(t, db.ledger[t]), Db(db.accounts, db.ledger - {t}));
      r := Ok(1);
    }
  }

  // ----- the bodies of the units of work -----

  /** What a body promises: its undo log restores the start, it stops at the first driver error, else it does `op`. */
  ghost predicate Serves(start: Db, op: Op, end: Db, restored: Db, r: Result<Reply>)
  {
    && restored == start
    && match r
       case Ok(reply) => Apply(start, op) == (end, reply)
       case Raise(Service(reply)) => Apply(start, op) == (start, reply)
       case Raise(Sql(_)) => false
       case Raise(Driver) => true
  }

  /** Debit, credit and ledger row, with both account rows known to be there. */
  method MoveMoney(conn: Connection, job: Job) returns (r: Result<Row>)
    requires conn.undo == [] && job.amount > 0 && InRange(conn.db.accounts)
    requires job.sender in conn.db.accounts && job.receiver in conn.db.accounts
    modifies conn, conn.db
    ensures conn.Restored() == old(conn.db.Contents()) && old(conn.calls) < conn.calls <= old(conn.calls) + 3
    ensures r == Raise(Driver) <==> old(conn.calls) < conn.failAt <= conn.calls
    ensures r == Raise(Service(Transferred(Insufficient))) ==> old(conn.db.accounts)[job.sender].balance < job.amount
    ensures r.Raise? && r.error.Service? ==> r.error.reply == Transferred(Insufficient)
    ensures r.Ok? || (r.Raise? && r.error.Sql?) ==> old(conn.db.accounts)[job.sender].balance >= job.amount
    ensures r.Raise? && r.error.Sql? ==>
              r.error.error == if !Fits(old(conn.db.accounts), job) then OutOfColumnRange else DuplicateKey
    ensures r.Ok? ==> Fits(old(conn.db.accounts), job) && job.txn !in old(conn.db.ledger) && r.value == RowOf(job)
    ensures r == Raise(Sql(DuplicateKey)) ==> job.txn in old(conn.db.ledger)
    ensures r.Ok? ==>
              conn.db.Contents() == Db(Moved(old(conn.db.accounts), job.sender, job.receiver, job.amount),
                                       old(conn.db.ledger)[job.txn := RowOf(job)])
  {
    MovedIsDebitCredit(conn.db.accounts, job.sender, job.receiver, job.amount);
    hide Moved, Rollback;
    ghost var start := conn.db.accounts;
    var debited := Debit(conn.db.accounts, job.sender, job.amount);
    var rows :- conn.Write(job.sender, debited);
    if rows != 1 { return Raise(Service(Transferred(Insufficient))); }
    var credited := Credit(conn.db.accounts, job.receiver, job.amount);
    var _ :- conn.Write(job.receiver, credited);
    var _ :- conn.InsertRow(job.txn, RowOf(job));
    r := Ok(RowOf(job));
  }

  /** The body of the unit of work in `transfer`. */
  method TransferBody(conn: Connection, job: Job) returns (r: Result<Reply>)
    requires conn.undo == [] && job.amount > 0 && !job.sameSpelling && InRange(conn.db.accounts)
    modifies conn, conn.db
    ensures Serves(old(conn.db.Contents()), Move(job), conn.db.Contents(), conn.Restored(), r)
    ensures r == Raise(Driver) <==> old(conn.calls) < conn.failAt <= conn.calls
    ensures old(conn.calls) < conn.calls <= old(conn.calls) + 5
  {
    hide Moved, InRange, Fits;
    var row1 :- conn.Fetch(job.First());
    var row2 :- conn.Fetch(job.Second());
    var sender, receiver := if job.senderFirst then row1 else row2, if job.senderFirst then row2 else row1;
    if sender == None { return Raise(Service(Transferred(SenderMissing))); }
    if receiver == None { return Raise(Service(Transferred(ReceiverMissing))); }
    if job.actor.role != "ADMIN" && job.actor.customer != Some(sender.value.customer) {
      return Raise(Service(Transferred(Forbidden)));
    }
    var moved := MoveMoney(conn, job);
    r := match moved
      case Ok(row) => Ok(Transferred(Done(row)))
      case Raise(Sql(e)) => Raise(Service(Transferred(if e == OutOfColumnRange then OutOfRange else Duplicate)))
      case Raise(e) => Raise(e);
  }

  /** Integrity errors leave a guarded body as service errors; the others leave it as they are. */
  function Guarded<T>(r: Result<T>): Result<T>
  {
    if r.Raise? && r.error.Sql? then Raise(Service(Guard(r.error.error))) else r
  }

  /** The body of each operation's unit of work. */
  method Body(conn: Connection, op: Op) returns (r: Result<Reply>)
    requires conn.undo == [] && InRange(conn.db.accounts)
    requires op.Move? ==> op.job.amount > 0 && !op.job.sameSpelling
    modifies conn, conn.db
    ensures Serves(old(conn.db.Contents()), op, conn.db.Contents(), conn.Restored(), r)
    ensures r == Raise(Driver) <==> old(conn.calls) < conn.failAt <= conn.calls
    ensures old(conn.calls) < conn.calls <= old(conn.calls) + 5
  {
    hide Moved, InRange, Attempt;
    match op
    case Move(job) =>
      r := TransferBody(conn, job);
    case Create(id, customer, customerExists, branchExists) =>
      var inserted := conn.InsertAccount(id, Account(customer, 0), customerExists && branchExists);
      var _ :- Guarded(inserted);
      r := Ok(Fine);
    case Adjust(id, cents) =>
      var write := WriteBalance(conn.db.accounts, id, cents);
      var updated := conn.Write(id, write);
      var rows :- Guarded(updated);
      if rows == 0 { return Raise(Service(NotFound)); }
      var _ :- conn.Fetch(id);
      r := Ok(Fine);
    case Close(id, hasCards) =>
      var deleted := conn.DeleteAccount(id, hasCards);
      var rows :- Guarded(deleted);
      if rows == 0 { return Raise(Service(NotFound)); }
      r := Ok(Fine);
    case Erase(txn) =>
      var rows :- conn.DeleteRow(txn);
      if rows == 0 { return Raise(Service(NotFound)); }
      r := Ok(Fine);
  }

  /** begin, body, commit; on any exception roll back and pass it on. */
  method UnitOfWork(conn: Connection, op: Op) returns (r: Result<Reply>)
    requires conn.undo == [] && InRange(conn.db.accounts)
    requires op.Move? ==> op.job.amount > 0 && !op.job.sameSpelling
    modifies conn, conn.db
    ensures conn.undo == []
    ensures Serves(old(conn.db.Contents()), op, conn.db.Contents(), old(conn.db.Contents()), r)
    ensures r.Raise? ==> conn.db.Contents() == old(conn.db.Contents())
    ensures r == Raise(Driver) <==> old(conn.calls) < conn.failAt <= conn.calls
    ensures old(conn.calls) < conn.calls <= old(conn.calls) + 7
  {
    var begun := conn.Begin();
    if begun.Raise? {
      conn.Rollback();
      return Raise(begun.error);
    }
    r := Body(conn, op);
    if r.Raise? {
      conn.Rollback();
      return;
    }
    var committed := conn.Commit();
    if committed.Raise? {
      conn.Rollback();
      return Raise(committed.error);
    }
  }

  datatype Ending = Blocked | Interrupted | Replied(reply: Reply)

  /**
   * One service call. Answered, it did what the operation means on its own; interrupted by the driver at any call,
   * it left the tables as they were; either way its connection is back.
   */
  method Serve(pool: Pool, db: Database, op: Op, failAt: nat) returns (e: Ending)
    requires InRange(db.accounts)
    requires op.Move? ==> op.job.amount > 0 && !op.job.sameSpelling
    modifies pool, db
    ensures pool.free == old(pool.free)
    ensures e == Blocked <==> old(pool.free) == 0
    ensures e == Interrupted ==> 1 <= failAt <= 7
    ensures failAt == 1 && old(pool.free) > 0 ==> e == Interrupted
    ensures e.Replied? ==> Apply(old(db.Contents()), op) == (db.Contents(), e.reply)
    ensures !e.Replied? ==> db.Contents() == old(db.Contents())
  {
    var taken := pool.Take();
    if !taken { return Blocked; }
    var conn := new Connection(db, failAt);
    var r := UnitOfWork(conn, op);
    pool.Return();
    e := match r
      case Ok(reply) => Replied(reply)
      case Raise(Service(reply)) => Replied(reply)
      case Raise(_) => Interrupted;
  }

  /** `transfer`: the Python checks, then the unit of work. */
  method TransferCall(pool: Pool, db: Database, collate: string -> Key, call: Call, failAt: nat) returns (e: Ending)
    requires InRange(db.accounts)
    modifies pool, db
    ensures pool.free == old(pool.free)
    ensures e == Interrupted ==> 1 <= failAt <= 7
    ensures e == Blocked ==> old(pool.free) == 0
    ensures e.Replied? ==> Apply(old(db.Contents()), Move(Receive(collate, call))) == (db.Contents(), e.reply)
    ensures !e.Replied? ==> db.Contents() == old(db.Contents())
  {
    var cents := Quantize(call.amount);
    if cents <= 0 { return Replied(Transferred(BadAmount)); }
    if call.senderId == call.receiverId { return Replied(Transferred(SameAccount)); }
    e := Serve(pool, db, Move(Receive(collate, call)), failAt);
  }
}
