/** Any number of clients running `transfer` over shared tables, row locks, undo logs and a bounded pool. */
module TransferMachine {
  import opened Bank

  /** The statement a client is about to issue. */
  datatype Phase =
    | Idle                                                  // between calls
    | Waiting                                               // in get_connection
    | Connected                                             // conn.begin()
    | Began                                                 // lock the first row
    | FirstLocked(row1: Option<Account>)                    // lock the second row
    | BothLocked(row1: Option<Account>, row2: Option<Account>) // existence and ownership checks
    | Checked                                               // debit
    | Debited                                               // credit
    | Credited                                              // ledger insert
    | Recorded                                              // conn.commit()
    | Raised(error: Outcome)                                // conn.rollback()
    | Ended(outcome: Outcome)                               // conn.close()

  datatype Client = Client(todo: seq<Job>, phase: Phase, undo: seq<Undo>, answers: seq<Outcome>)

  /** History: which call was decided, and how, in commit and rollback order. */
  datatype Entry = Entry(client: nat, job: Job, outcome: Outcome)

  datatype State = State(db: Db, locks: map<Key, nat>, inserts: map<Key, nat>, free: nat,
                         clients: seq<Client>, log: seq<Entry>)

  function Start(db: Db, pool: nat, work: seq<seq<Job>>): State
  {
    State(db, map[], map[], pool, seq(|work|, i requires 0 <= i < |work| => Client(work[i], Idle, [], [])), [])
  }

  // ----- helpers -----

  function Lookup(accounts: map<Key, Account>, k: Key): Option<Account>
  {
    if k in accounts then Some(accounts[k]) else None
  }

  function Release(locks: map<Key, nat>, c: nat): map<Key, nat>
  {
    map k | k in locks && locks[k] != c :: locks[k]
  }

  function Put(s: State, c: nat, cl: Client): State
    requires c < |s.clients|
  {
    s.(clients := s.clients[c := cl])
  }

  /** The call is over: the client remembers its answer and turns to its next call. */
  function Finish(cl: Client, o: Outcome): Client
    requires cl.todo != []
  {
    Client(cl.todo[1..], Idle, [], cl.answers + [o])
  }

  // ----- the steps of one call, in order; None means the client cannot move -----

  function Accept(s: State, c: nat): Option<State>
    requires c < |s.clients|
  {
    var cl := s.clients[c];
    if cl.todo == [] then None
    else
      var job := cl.todo[0];
      if job.amount <= 0 then Some(Put(s, c, Finish(cl, BadAmount)).(log := s.log + [Entry(c, job, BadAmount)]))
      else if job.sameSpelling then
        Some(Put(s, c, Finish(cl, SameAccount)).(log := s.log + [Entry(c, job, SameAccount)]))
      else Some(Put(s, c, cl.(phase := Waiting)))
  }

  function Borrow(s: State, c: nat): Option<State>
    requires c < |s.clients|
  {
    if s.free == 0 then None else Some(Put(s, c, s.clients[c].(phase := Connected)).(free := s.free - 1))
  }

  /** SELECT ... FOR UPDATE waits for the row's holder; a missing row takes no lock. */
  function Lock(s: State, c: nat, k: Key, next: Phase): Option<State>
    requires c < |s.clients|
  {
    if k in s.locks && s.locks[k] != c then None
    else if k in s.db.accounts then Some(Put(s, c, s.clients[c].(phase := next)).(locks := s.locks[k := c]))
    else Some(Put(s, c, s.clients[c].(phase := next)))
  }

  function Check(s: State, c: nat, job: Job, row1: Option<Account>, row2: Option<Account>): State
    requires c < |s.clients|
  {
    var cl := s.clients[c];
    var sender := if job.senderFirst then row1 else row2;
    var receiver := if job.senderFirst then row2 else row1;
    Put(s, c, cl.(phase :=
      if sender == None then Raised(SenderMissing)
      else if receiver == None then Raised(ReceiverMissing)
      else if !Allowed(job.actor, sender.value) then Raised(Forbidden)
      else Checked))
  }

  function DebitStep(s: State, c: nat, job: Job): State
    requires c < |s.clients|
  {
    var cl := s.clients[c];
    match Debit(s.db.accounts, job.sender, job.amount)
    case Refused(e) => Put(s, c, cl.(phase := Raised(e)))
    case Changed(accounts, rows) =>
      if rows != 1 || job.sender !in s.db.accounts then Put(s, c, cl.(phase := Raised(Insufficient)))
      else Put(s, c, cl.(phase := Debited, undo := cl.undo + [Before(job.sender, s.db.accounts[job.sender])]))
           .(db := Db(accounts, s.db.ledger))
  }

  function CreditStep(s: State, c: nat, job: Job): State
    requires c < |s.clients|
  {
    var cl := s.clients[c];
    match Credit(s.db.accounts, job.receiver, job.amount)
    case Refused(e) => Put(s, c, cl.(phase := Raised(e)))
    case Changed(accounts, _) =>
      var image := if job.receiver in s.db.accounts then [Before(job.receiver, s.db.accounts[job.receiver])] else [];
      Put(s, c, cl.(phase := Credited, undo := cl.undo + image)).(db := Db(accounts, s.db.ledger))
  }

  function InsertStep(s: State, c: nat, job: Job): State
    requires c < |s.clients|
  {
    var cl := s.clients[c];
    if job.txn in s.db.ledger then Put(s, c, cl.(phase := Raised(Duplicate)))
    else Put(s, c, cl.(phase := Recorded, undo := cl.undo + [Inserted(job.txn)]))
         .(db := Db(s.db.accounts, s.db.ledger[job.txn := RowOf(job)]), inserts := s.inserts[job.txn := c])
  }

  function CommitStep(s: State, c: nat, job: Job): State
    requires c < |s.clients|
  {
    var cl := s.clients[c];
    Put(s, c, cl.(phase := Ended(Done(RowOf(job))), undo := []))
      .(locks := Release(s.locks, c), inserts := Release(s.inserts, c),
        log := s.log + [Entry(c, job, Done(RowOf(job)))])
  }

  function RollbackStep(s: State, c: nat, job: Job, error: Outcome): State
    requires c < |s.clients|
  {
    var cl := s.clients[c];
    Put(s, c, cl.(phase := Ended(error), undo := []))
      .(db := Rollback(s.db, cl.undo), locks := Release(s.locks, c), inserts := Release(s.inserts, c),
        log := s.log + [Entry(c, job, error)])
  }

  function CloseStep(s: State, c: nat, o: Outcome): State
    requires c < |s.clients| && s.clients[c].todo != []
  {
    Put(s, c, Finish(s.clients[c], o)).(free := s.free + 1)
  }

  /** What client c does next when the database answers normally. */
  function Advance(s: State, c: nat): Option<State>
    requires c < |s.clients|
  {
    var cl := s.clients[c];
    if cl.phase.Idle? then Accept(s, c)
    else if cl.todo == [] then None
    else
      var job := cl.todo[0];
      match cl.phase
      case Waiting => Borrow(s, c)
      case Connected => Some(Put(s, c, cl.(phase := Began)))
      case Began => Lock(s, c, job.First(), FirstLocked(Lookup(s.db.accounts, job.First())))
      case FirstLocked(row1) => Lock(s, c, job.Second(), BothLocked(row1, Lookup(s.db.accounts, job.Second())))
      case BothLocked(row1, row2) => Some(Check(s, c, job, row1, row2))
      case Checked => Some(DebitStep(s, c, job))
      case Debited => Some(CreditStep(s, c, job))
      case Credited => Some(InsertStep(s, c, job))
      case Recorded => Some(CommitStep(s, c, job))
      case Raised(e) => Some(RollbackStep(s, c, job, e))
      case Ended(o) => Some(CloseStep(s, c, o))
  }

  predicate InUnitOfWork(p: Phase)
  {
    !p.Idle? && !p.Waiting? && !p.Raised? && !p.Ended?
  }

  /** The call client c is making fails: a lock timeout, a lost connection, any driver error. */
  function Fault(s: State, c: nat): Option<State>
    requires c < |s.clients|
  {
    var cl := s.clients[c];
    if cl.todo == [] then None
    else if cl.phase.Waiting? then
      Some(Put(s, c, Finish(cl, DriverError)).(log := s.log + [Entry(c, cl.todo[0], DriverError)]))
    else if InUnitOfWork(cl.phase) then Some(Put(s, c, cl.(phase := Raised(DriverError))))
    else None
  }

  // ----- runs -----

  datatype Choice = Choice(client: nat, fault: bool)

  function Step(s: State, ch: Choice): Option<State>
  {
    if ch.client >= |s.clients| then None
    else if ch.fault then Fault(s, ch.client) else Advance(s, ch.client)
  }

  /** A schedule is a list of choices; a choice that cannot be taken is skipped. */
  function Run(s: State, schedule: seq<Choice>): State
    decreases |schedule|
  {
    if schedule == [] then s
    else
      var before := Run(s, schedule[..|schedule| - 1]);
      match Step(before, schedule[|schedule| - 1])
      case None => before
      case Some(after) => after
  }

  // ----- the serial reading of a history -----

  /** Outcomes the database decides; the others are accidents that a serial run simply omits. */
  predicate Accident(o: Outcome)
  {
    o == DriverError || o == Duplicate
  }

  function Absorb(db: Db, e: Entry): Db
  {
    if Accident(e.outcome) then db else Attempt(db, e.job).0
  }

  /** Run the history's transfers one after another, each alone. */
  function Replay(db: Db, log: seq<Entry>): Db
  {
    if log == [] then db else Absorb(Replay(db, log[..|log| - 1]), log[|log| - 1])
  }

  /** Every decided call got the answer the serial run gives it. */
  ghost predicate Agrees(db: Db, log: seq<Entry>)
  {
    forall i :: 0 <= i < |log| && !Accident(log[i].outcome) ==>
      Attempt(Replay(db, log[..i]), log[i].job).1 == log[i].outcome
  }

  lemma ReplayAppend(db: Db, log: seq<Entry>, e: Entry)
    ensures Replay(db, log + [e]) == Absorb(Replay(db, log), e)
  {
    assert (log + [e])[..|log|] == log;
  }

  lemma AgreesAppend(db: Db, log: seq<Entry>, e: Entry)
    requires Agrees(db, log)
    requires Accident(e.outcome) || Attempt(Replay(db, log), e.job).1 == e.outcome
    ensures Agrees(db, log + [e])
  {
    var log' := log + [e];
    forall i | 0 <= i < |log'| && !Accident(log'[i].outcome)
      ensures Attempt(Replay(db, log'[..i]), log'[i].job).1 == log'[i].outcome
    {
      assert log'[..i] == log[..i];
      assert i == |log| ==> log[..i] == log;
    }
  }

  lemma {:induction false} ReplayConserves(db: Db, log: seq<Entry>)
    ensures Total(Replay(db, log).accounts) == Total(db.accounts)
    ensures InRange(db.accounts) ==> InRange(Replay(db, log).accounts)
    ensures Replay(db, log).accounts.Keys == db.accounts.Keys
    ensures forall k :: k in db.accounts ==> Replay(db, log).accounts[k].customer == db.accounts[k].customer
  {
    if log != [] {
      ReplayConserves(db, log[..|log| - 1]);
      AttemptConserves(Replay(db, log[..|log| - 1]), log[|log| - 1].job);
    }
  }
}
