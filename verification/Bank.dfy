/** The tables a transfer touches, the statements it issues, and what one transfer means when it runs alone. */
module Bank {
  import opened Sums

  /** A primary key as the database compares it, after collation. */
  type Key = string

  /** Largest value of a DECIMAL(15, 2) column, in cents. */
  const MAX_CENTS := 999_999_999_999_999

  datatype Option<+T> = None | Some(value: T)

  datatype Actor = Actor(role: string, customer: Option<string>)

  datatype Account = Account(customer: string, balance: int)

  datatype Kind = Deposit | Withdrawal | Transfer

  datatype Row = Row(source: Key, target: Option<Key>, kind: Kind, amount: int, at: int)

  datatype Db = Db(accounts: map<Key, Account>, ledger: map<Key, Row>)

  /** One call of `transfer` after Python has quantized the amount, compared and sorted the two spellings. */
  datatype Job = Job(actor: Actor, sender: Key, receiver: Key, senderFirst: bool, sameSpelling: bool,
                     amount: int, txn: Key, at: int)
  {
    function First(): Key { if senderFirst then sender else receiver }

    function Second(): Key { if senderFirst then receiver else sender }
  }

  datatype Outcome =
    | Done(row: Row)
    | BadAmount | SameAccount | SenderMissing | ReceiverMissing | Forbidden | Insufficient
    | OutOfRange | CheckFailed | Duplicate | DriverError

  // ----- statements on the account table -----

  /** Result of an UPDATE: the new table with the number of rows changed, or the server's refusal. */
  datatype Write = Changed(accounts: map<Key, Account>, rows: nat) | Refused(error: Outcome)

  function WriteBalance(accounts: map<Key, Account>, k: Key, balance: int): Write
  {
    if k !in accounts then Changed(accounts, 0)
    else if balance > MAX_CENTS || balance < -MAX_CENTS then Refused(OutOfRange)
    else if balance < 0 then Refused(CheckFailed)
    else Changed(accounts[k := accounts[k].(balance := balance)], if balance == accounts[k].balance then 0 else 1)
  }

  function Debit(accounts: map<Key, Account>, k: Key, amount: int): Write
  {
    if k in accounts && accounts[k].balance >= amount then WriteBalance(accounts, k, accounts[k].balance - amount)
    else Changed(accounts, 0)
  }

  function Credit(accounts: map<Key, Account>, k: Key, amount: int): Write
  {
    if k in accounts then WriteBalance(accounts, k, accounts[k].balance + amount) else Changed(accounts, 0)
  }

  // ----- the undo log -----

  /** How to take one write back: the server's record of it until commit or rollback. */
  datatype Undo =
    | Before(key: Key, account: Account)
    | Inserted(txn: Key)
    | Opened(key: Key)
    | Closed(key: Key, account: Account, unlinked: map<Key, Row>)
    | Erased(txn: Key, row: Row)

  function UndoOne(db: Db, u: Undo): Db
  {
    match u
    case Before(k, a) => Db(db.accounts[k := a], db.ledger)
    case Inserted(t) => Db(db.accounts, db.ledger - {t})
    case Opened(k) => Db(db.accounts - {k}, db.ledger)
    case Closed(k, a, rows) => Db(db.accounts[k := a], db.ledger + rows)
    case Erased(t, r) => Db(db.accounts, db.ledger[t := r])
  }

  /** Last write first. */
  function Rollback(db: Db, undo: seq<Undo>): Db
    decreases |undo|
  {
    if undo == [] then db else Rollback(UndoOne(db, undo[|undo| - 1]), undo[..|undo| - 1])
  }

  predicate Allowed(actor: Actor, account: Account)
  {
    actor.role == "ADMIN" || actor.customer == Some(account.customer)
  }

  function RowOf(job: Job): Row
  {
    Row(job.sender, Some(job.receiver), Transfer, job.amount, job.at)
  }

  // ----- one transfer on its own -----

  /** Why a transfer running alone is turned down, if it is. */
  function Refusal(db: Db, job: Job): Option<Outcome>
  {
    if job.amount <= 0 then Some(BadAmount)
    else if job.sameSpelling then Some(SameAccount)
    else if job.sender !in db.accounts then Some(SenderMissing)
    else if job.receiver !in db.accounts then Some(ReceiverMissing)
    else if !Allowed(job.actor, db.accounts[job.sender]) then Some(Forbidden)
    else if db.accounts[job.sender].balance < job.amount then Some(Insufficient)
    else if !Fits(db.accounts, job) then Some(OutOfRange)
    else if job.txn in db.ledger then Some(Duplicate)
    else None
  }

  predicate Fits(accounts: map<Key, Account>, job: Job)
    requires job.receiver in accounts
  {
    job.sender == job.receiver || accounts[job.receiver].balance + job.amount <= MAX_CENTS
  }

  function Moved(accounts: map<Key, Account>, sender: Key, receiver: Key, amount: int): map<Key, Account>
  {
    map k | k in accounts ::
      accounts[k].(balance := accounts[k].balance - (if k == sender then amount else 0)
                                                   + (if k == receiver then amount else 0))
  }

  function Attempt(db: Db, job: Job): (Db, Outcome)
  {
    match Refusal(db, job)
    case Some(o) => (db, o)
    case None => (Db(Moved(db.accounts, job.sender, job.receiver, job.amount), db.ledger[job.txn := RowOf(job)]),
                  Done(RowOf(job)))
  }

  // ----- exactly who gets which answer -----

  /** Only an admin, or the customer the sending account belongs to, may move its money. */
  lemma ForbiddenExactly(db: Db, job: Job)
    requires job.amount > 0 && !job.sameSpelling && job.sender in db.accounts && job.receiver in db.accounts
    ensures Attempt(db, job) == (db, Forbidden) <==>
              job.actor.role != "ADMIN" && job.actor.customer != Some(db.accounts[job.sender].customer)
    ensures Attempt(db, job).1.Done? ==>
              job.actor.role == "ADMIN" || job.actor.customer == Some(db.accounts[job.sender].customer)
  {
  }

  /** The refusals before the ownership check come in this order, each exactly in its case, and change nothing. */
  lemma RefusedExactly(db: Db, job: Job)
    ensures Attempt(db, job) == (db, BadAmount) <==> job.amount <= 0
    ensures Attempt(db, job) == (db, SameAccount) <==> job.amount > 0 && job.sameSpelling
    ensures Attempt(db, job) == (db, SenderMissing) <==>
              job.amount > 0 && !job.sameSpelling && job.sender !in db.accounts
    ensures Attempt(db, job) == (db, ReceiverMissing) <==>
              job.amount > 0 && !job.sameSpelling && job.sender in db.accounts && job.receiver !in db.accounts
    ensures !Attempt(db, job).1.Done? ==> Attempt(db, job).0 == db
    ensures Attempt(db, job).1 != CheckFailed && Attempt(db, job).1 != DriverError
  {
  }

  /**
   * An actor who may send is told of insufficient funds exactly below the amount, of an overflow exactly when another
   * account's balance would pass 9,999,999,999,999.99, of a duplicate exactly when the id is taken, in this order.
   */
  lemma DeclinedExactly(db: Db, job: Job)
    requires job.amount > 0 && !job.sameSpelling && job.sender in db.accounts && job.receiver in db.accounts
    requires job.actor.role == "ADMIN" || job.actor.customer == Some(db.accounts[job.sender].customer)
    ensures var enough := db.accounts[job.sender].balance >= job.amount;
            var after := db.accounts[job.receiver].balance + job.amount;
            var over := job.sender != job.receiver && after > 999_999_999_999_999;
            && (Attempt(db, job) == (db, Insufficient) <==> !enough)
            && (Attempt(db, job) == (db, OutOfRange) <==> enough && over)
            && (Attempt(db, job) == (db, Duplicate) <==> enough && !over && job.txn in db.ledger)
            && (Attempt(db, job).1.Done? <==> enough && !over && job.txn !in db.ledger)
  {
  }

  /** A transfer that goes through takes the amount from the one, gives it to the other, and writes this one row. */
  lemma DoneMeans(db: Db, job: Job, k: Key)
    requires Attempt(db, job).1.Done?
    ensures var (db', o) := Attempt(db, job);
            var row := Row(job.sender, Some(job.receiver), Transfer, job.amount, job.at);
            && o == Done(row) && job.txn !in db.ledger && db'.ledger == db.ledger[job.txn := row]
            && db'.accounts.Keys == db.accounts.Keys
            && (k in db.accounts && k != job.sender && k != job.receiver ==> db'.accounts[k] == db.accounts[k])
            && (job.sender != job.receiver ==>
                  && db'.accounts[job.sender].balance == db.accounts[job.sender].balance - job.amount
                  && db'.accounts[job.receiver].balance == db.accounts[job.receiver].balance + job.amount)
            && (job.sender == job.receiver ==> db'.accounts == db.accounts)
            && (k in db.accounts ==> db'.accounts[k].customer == db.accounts[k].customer)
  {
  }

  // ----- table-wide properties -----

  predicate InRange(accounts: map<Key, Account>)
  {
    forall k :: k in accounts ==> 0 <= accounts[k].balance <= MAX_CENTS
  }

  function Balance(): Account -> int { (a: Account) => a.balance }

  ghost function Total(accounts: map<Key, Account>): int
  {
    SumMap(accounts, Balance())
  }

  lemma TotalWrite(accounts: map<Key, Account>, k: Key, balance: int)
    requires k in accounts
    ensures Total(accounts[k := accounts[k].(balance := balance)]) == Total(accounts) + balance - accounts[k].balance
  {
    SumMapUpdate(accounts, Balance(), k, accounts[k].(balance := balance));
  }

  /** A transfer is a debit followed by a credit, also when both fall on the same row. */
  lemma MovedIsDebitCredit(accounts: map<Key, Account>, sender: Key, receiver: Key, amount: int)
    requires sender in accounts && receiver in accounts
    ensures var d := accounts[sender := accounts[sender].(balance := accounts[sender].balance - amount)];
            Moved(accounts, sender, receiver, amount) ==
                d[receiver := d[receiver].(balance := d[receiver].balance + amount)]
  {
  }

  lemma MovedTotal(accounts: map<Key, Account>, sender: Key, receiver: Key, amount: int)
    requires sender in accounts && receiver in accounts
    ensures Total(Moved(accounts, sender, receiver, amount)) == Total(accounts)
  {
    var d := accounts[sender := accounts[sender].(balance := accounts[sender].balance - amount)];
    MovedIsDebitCredit(accounts, sender, receiver, amount);
    TotalWrite(accounts, sender, accounts[sender].balance - amount);
    TotalWrite(d, receiver, d[receiver].balance + amount);
  }

  /** Whatever the request, one transfer keeps the total, the range of every balance, and every owner. */
  lemma AttemptConserves(db: Db, job: Job)
    ensures Total(Attempt(db, job).0.accounts) == Total(db.accounts)
    ensures InRange(db.accounts) ==> InRange(Attempt(db, job).0.accounts)
    ensures Attempt(db, job).0.accounts.Keys == db.accounts.Keys
    ensures forall k :: k in db.accounts ==> Attempt(db, job).0.accounts[k].customer == db.accounts[k].customer
  {
    if Refusal(db, job) == None {
      MovedTotal(db.accounts, job.sender, job.receiver, job.amount);
    }
  }

  /** While all the money in the bank fits in one balance, no credit can leave the column's range. */
  lemma NoOverflowWhileTotalFits(db: Db, job: Job)
    requires InRange(db.accounts) && Total(db.accounts) <= MAX_CENTS
    ensures Attempt(db, job).1 != OutOfRange
  {
    if Refusal(db, job) == Some(OutOfRange) {
      SumMapTwo(db.accounts, Balance(), job.sender, job.receiver);
    }
  }
}
