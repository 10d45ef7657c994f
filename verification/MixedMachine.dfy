/** All writers at once: every service call as a unit of work over shared tables, row locks, gap locks and undo logs. */
module MixedMachine {
  import opened Bank
  import opened Books
  import TransferMachine

  // ----- what can be locked -----

  /** A row of either table, there or not. */
  datatype Res = Acc(key: Key) | Led(key: Key)

  datatype Val = A(account: Account) | L(row: Row)

  function Get(db: Db, r: Res): Option<Val>
  {
    match r
    case Acc(k) => if k in db.accounts then Some(A(db.accounts[k])) else None
    case Led(t) => if t in db.ledger then Some(L(db.ledger[t])) else None
  }

  /** The statement of this operation reads or writes the row: by its key, or as a ledger row that refers to the key. */
  predicate Interest(op: Op, r: Res, db: Db)
  {
    match op
    case Create(id, _, _, _) => r == Acc(id)
    case Adjust(id, _) => r == Acc(id)
    case Close(id, _) => r == Acc(id) || (r.Led? && r.key in db.ledger && Touches(db.ledger[r.key], id))
    case Erase(t) => r == Led(t)
    case Move(_) => false
  }

  function Claimed(db: Db, op: Op): set<Res>
  {
    match op
    case Create(id, _, _, _) => {Acc(id)}
    case Adjust(id, _) => {Acc(id)}
    case Close(id, _) => {Acc(id)} + (set t | t in db.ledger && Touches(db.ledger[t], id) :: Led(t))
    case Erase(t) => {Led(t)}
    case Move(_) => {}
  }

  /** Of those, the ones locked as rows; where no row is there and none is put there, only the gap is locked. */
  function Rows(db: Db, op: Op): set<Res>
  {
    set r | r in Claimed(db, op) && (Get(db, r).Some? || Get(Apply(db, op).0, r).Some?)
  }

  /** The record that takes the operation's one statement back. */
  function UndoFor(db: Db, op: Op): Undo
    requires !op.Move? && Apply(db, op).1 == Fine
  {
    match op
    case Create(id, _, _, _) => Opened(id)
    case Adjust(id, _) => Before(id, db.accounts[id])
    case Close(id, _) =>
      Closed(id, db.accounts[id], map t | t in db.ledger && db.ledger[t].target == Some(id) :: db.ledger[t])
    case Erase(t) => Erased(t, db.ledger[t])
  }

  // ----- the machine -----

  datatype Phase =
    | Idle                                                     // between calls
    | Began                                                    // the first statement, or the first row of a transfer
    | FirstLocked(row1: Option<Account>)                       // from here to Credited: transfers only
    | BothLocked(row1: Option<Account>, row2: Option<Account>)
    | Checked
    | Debited
    | Credited
    | Wrote(reply: Reply)                                      // conn.commit()
    | Raised(answer: Option<Reply>)                            // conn.rollback(); None for a driver error

  datatype Client = Client(todo: seq<Op>, phase: Phase, undo: seq<Undo>)

  datatype Entry = Entry(client: nat, op: Op, answer: Option<Reply>)

  /** A lock on the absence of a row: others may hold one too, but nobody else may put the row there. */
  datatype Gap = Gap(res: Res, client: nat)

  datatype State = State(db: Db, locks: map<Res, nat>, gaps: set<Gap>, clients: seq<Client>, log: seq<Entry>)

  function Start(db: Db, work: seq<seq<Op>>): State
  {
    State(db, map[], {}, seq(|work|, i requires 0 <= i < |work| => Client(work[i], Idle, [])), [])
  }

  function Own(s: State, c: nat): set<Res>
  {
    set r | r in s.locks && s.locks[r] == c
  }

  function Peek(s: State, c: nat): set<Res>
  {
    set g | g in s.gaps && g.client == c :: g.res
  }

  /** Client c takes more locks and gets a new record. */
  function With(s: State, c: nat, cl: Client, rows: set<Res>, gaps: set<Res>): State
    requires c < |s.clients|
  {
    s.(clients := s.clients[c := cl], gaps := s.gaps + (set r | r in gaps :: Gap(r, c)),
       locks := map r | r in s.locks.Keys + rows :: if r in rows then c else s.locks[r])
  }

  /** The unit of work of client c is over. */
  function Finish(s: State, c: nat, answer: Option<Reply>): State
    requires c < |s.clients| && s.clients[c].todo != []
  {
    var cl := s.clients[c];
    var locks := map r | r in s.locks && s.locks[r] != c :: s.locks[r];
    var gaps := set g | g in s.gaps && g.client != c;
    State(s.db, locks, gaps, s.clients[c := Client(cl.todo[1..], Idle, [])], s.log + [Entry(c, cl.todo[0], answer)])
  }

  function Accept(s: State, c: nat): Option<State>
    requires c < |s.clients|
  {
    var cl := s.clients[c];
    if cl.todo == [] then None
    else if cl.todo[0].Move? && cl.todo[0].job.amount <= 0 then Some(Finish(s, c, Some(Transferred(BadAmount))))
    else if cl.todo[0].Move? && cl.todo[0].job.sameSpelling then Some(Finish(s, c, Some(Transferred(SameAccount))))
    else Some(With(s, c, cl.(phase := Began), {}, {}))
  }

  /** Another client holds the row, and the statement is interested in it as it is or as a rollback would leave it. */
  predicate Contended(s: State, c: nat, op: Op, r: Res)
  {
    && r in s.locks && s.locks[r] != c
    && (Interest(op, r, s.db)
        || (s.locks[r] < |s.clients| && Interest(op, r, Rollback(s.db, s.clients[s.locks[r]].undo))))
  }

  predicate Waits(s: State, c: nat, op: Op)
  {
    || (exists r :: r in s.locks && Contended(s, c, op, r))
    || (exists g :: g in s.gaps && g.client != c && g.res in Rows(s.db, op))
  }

  /** The one statement of an operation other than a transfer. */
  function Execute(s: State, c: nat, op: Op): Option<State>
    requires c < |s.clients| && !op.Move?
  {
    if Waits(s, c, op) then None
    else
      var cl, rows := s.clients[c], Rows(s.db, op);
      var (db', reply) := Apply(s.db, op);
      if reply == Fine then
        Some(With(s, c, cl.(phase := Wrote(Fine), undo := [UndoFor(s.db, op)]), rows, Claimed(s.db, op) - rows)
             .(db := db'))
      else Some(With(s, c, cl.(phase := Raised(Some(reply))), rows, Claimed(s.db, op) - rows))
  }

  /** SELECT ... FOR UPDATE: the row if it is there, the gap if not. */
  function LockAccount(s: State, c: nat, k: Key, next: Phase): Option<State>
    requires c < |s.clients|
  {
    var r, cl := Acc(k), s.clients[c].(phase := next);
    if r in s.locks && s.locks[r] != c then None
    else if k in s.db.accounts then Some(With(s, c, cl, {r}, {}))
    else Some(With(s, c, cl, {}, {r}))
  }

  function Check(s: State, c: nat, job: Job, row1: Option<Account>, row2: Option<Account>): State
    requires c < |s.clients|
  {
    var sender := if job.senderFirst then row1 else row2;
    var receiver := if job.senderFirst then row2 else row1;
    var next :=
      if sender == None then Raised(Some(Transferred(SenderMissing)))
      else if receiver == None then Raised(Some(Transferred(ReceiverMissing)))
      else if !Allowed(job.actor, sender.value) then Raised(Some(Transferred(Forbidden)))
      else Checked;
    With(s, c, s.clients[c].(phase := next), {}, {})
  }

  function DebitStep(s: State, c: nat, job: Job): State
    requires c < |s.clients|
  {
    var cl := s.clients[c];
    match Debit(s.db.accounts, job.sender, job.amount)
    case Refused(e) => With(s, c, cl.(phase := Raised(Some(Transferred(e)))), {}, {})
    case Changed(accounts, rows) =>
      if rows != 1 || job.sender !in s.db.accounts then
        With(s, c, cl.(phase := Raised(Some(Transferred(Insufficient)))), {}, {})
      else
        var u := Before(job.sender, s.db.accounts[job.sender]);
        With(s, c, cl.(phase := Debited, undo := cl.undo + [u]), {}, {}).(db := Db(accounts, s.db.ledger))
  }

  function CreditStep(s: State, c: nat, job: Job): State
    requires c < |s.clients|
  {
    var cl := s.clients[c];
    match Credit(s.db.accounts, job.receiver, job.amount)
    case Refused(e) => With(s, c, cl.(phase := Raised(Some(Transferred(e)))), {}, {})
    case Changed(accounts, _) =>
      var image := if job.receiver in s.db.accounts then [Before(job.receiver, s.db.accounts[job.receiver])] else [];
      With(s, c, cl.(phase := Credited, undo := cl.undo + image), {}, {}).(db := Db(accounts, s.db.ledger))
  }

  function InsertStep(s: State, c: nat, job: Job): Option<State>
    requires c < |s.clients|
  {
    var r, cl := Led(job.txn), s.clients[c];
    if r in s.locks && s.locks[r] != c then None
    else if exists g :: g in s.gaps && g.client != c && g.res == r then None
    else if job.txn in s.db.ledger then
      Some(With(s, c, cl.(phase := Raised(Some(Transferred(Duplicate)))), {r}, {}))
    else
      var cl' := cl.(phase := Wrote(Transferred(Done(RowOf(job)))), undo := cl.undo + [Inserted(job.txn)]);
      Some(With(s, c, cl', {r}, {}).(db := Db(s.db.accounts, s.db.ledger[job.txn := RowOf(job)])))
  }

  function MoveStep(s: State, c: nat, job: Job): Option<State>
    requires c < |s.clients|
  {
    match s.clients[c].phase
    case Began => LockAccount(s, c, job.First(), FirstLocked(TransferMachine.Lookup(s.db.accounts, job.First())))
    case FirstLocked(row1) =>
      LockAccount(s, c, job.Second(), BothLocked(row1, TransferMachine.Lookup(s.db.accounts, job.Second())))
    case BothLocked(row1, row2) => Some(Check(s, c, job, row1, row2))
    case Checked => Some(DebitStep(s, c, job))
    case Debited => Some(CreditStep(s, c, job))
    case Credited => InsertStep(s, c, job)
    case _ => None
  }

  function Advance(s: State, c: nat): Option<State>
    requires c < |s.clients|
  {
    var cl := s.clients[c];
    if cl.phase.Idle? then Accept(s, c)
    else if cl.todo == [] then None
    else if cl.phase.Wrote? then Some(Finish(s, c, Some(cl.phase.reply)))
    else if cl.phase.Raised? then Some(Finish(s.(db := Rollback(s.db, cl.undo)), c, cl.phase.answer))
    else if cl.todo[0].Move? then MoveStep(s, c, cl.todo[0].job)
    else if cl.phase.Began? then Execute(s, c, cl.todo[0])
    else None
  }

  /** A driver error at any statement, the commit included. */
  function Fault(s: State, c: nat): Option<State>
    requires c < |s.clients|
  {
    var cl := s.clients[c];
    if cl.phase.Idle? || cl.phase.Raised? then None
    else Some(With(s, c, cl.(phase := Raised(None)), {}, {}))
  }

  datatype Choice = Choice(client: nat, fault: bool)

  function Step(s: State, ch: Choice): Option<State>
  {
    if ch.client >= |s.clients| then None
    else if ch.fault then Fault(s, ch.client) else Advance(s, ch.client)
  }

  function Run(s: State, schedule: seq<Choice>): State
    decreases |schedule|
  {
    if schedule == [] then s
    else
      var before := Run(s, schedule[..|schedule| - 1]);
      match Step(before, schedule[|schedule| - 1])
      case None => before
      case Some(after) => after
  }

  // ----- the serial reading of a history -----

  /** The answered calls, in the order in which they were decided; driver errors are left out. */
  function Ops(log: seq<Entry>): seq<Op>
  {
    if log == [] then []
    else
      var earlier, last := Ops(log[..|log| - 1]), log[|log| - 1];
      if last.answer == None then earlier else earlier + [last.op]
  }

  /** Every answered call got the answer that the books' serial run gives it. */
  ghost predicate Agrees(db: Db, log: seq<Entry>)
  {
    forall i :: 0 <= i < |log| && log[i].answer.Some? ==>
      Apply(Play(db, Ops(log[..i])), log[i].op).1 == log[i].answer.value
  }

  lemma OpsAppend(log: seq<Entry>, e: Entry)
    ensures Ops(log + [e]) == if e.answer == None then Ops(log) else Ops(log) + [e.op]
  {
    assert (log + [e])[..|log|] == log;
  }

  lemma PlayAppend(db: Db, ops: seq<Op>, op: Op)
    ensures Play(db, ops + [op]) == Apply(Play(db, ops), op).0
  {
    assert (ops + [op])[..|ops|] == ops;
  }

  lemma AgreesAppend(db: Db, log: seq<Entry>, e: Entry)
    requires Agrees(db, log)
    requires e.answer.Some? ==> Apply(Play(db, Ops(log)), e.op).1 == e.answer.value
    ensures Agrees(db, log + [e])
  {
    var log' := log + [e];
    forall i | 0 <= i < |log'| && log'[i].answer.Some?
      ensures Apply(Play(db, Ops(log'[..i])), log'[i].op).1 == log'[i].answer.value
    {
      assert log'[..i] == log[..i];
      assert i == |log| ==> log[..i] == log;
    }
  }
}
