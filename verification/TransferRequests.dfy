/** What Python does with a call before the unit of work opens, and when id spellings make the lock order fail. */
module TransferRequests {
  import opened Bank
  import opened TransferMachine
  import opened TransferLiveness

  datatype Call = Call(actor: Actor, senderId: string, receiverId: string, amount: real, txn: Key, at: int)

  // ----- the amount -----

  /** Round to whole cents, ties to the even cent. */
  function Quantize(amount: real): int
  {
    var f := (amount * 100.0).Floor;
    var rest := amount * 100.0 - f as real;
    if rest < 0.5 || (rest == 0.5 && f % 2 == 0) then f else f + 1
  }

  lemma QuantizeIsNearest(amount: real, n: int)
    ensures n == Quantize(amount) <==>
              var d := amount * 100.0 - n as real;
              -0.5 <= d <= 0.5 && (d == 0.5 || d == -0.5 ==> n % 2 == 0)
  {
    var f := (amount * 100.0).Floor;
    var d := amount * 100.0 - n as real;
    if -0.5 <= d <= 0.5 { assert n == f || n == f + 1; }
  }

  // ----- ids -----

  /** Order of Python strings: by code point, a proper prefix first. */
  predicate PyLess(a: string, b: string)
  {
    b != [] && (a == [] || a[0] < b[0] || (a[0] == b[0] && PyLess(a[1..], b[1..])))
  }

  lemma {:induction false} PyLessTrichotomy(a: string, b: string)
    ensures !PyLess(a, a)
    ensures a == b || PyLess(a, b) || PyLess(b, a)
    ensures !(PyLess(a, b) && PyLess(b, a))
  {
    if a != [] {
      PyLessTrichotomy(a[1..], if b == [] then [] else b[1..]);
      if b != [] && a[0] == b[0] && a[1..] == b[1..] { assert a == [a[0]] + a[1..] && b == [b[0]] + b[1..]; }
    }
  }

  lemma {:induction false} PyLessTransitive(a: string, b: string, c: string)
    requires PyLess(a, b) && PyLess(b, c)
    ensures PyLess(a, c)
  {
    if a != [] && a[0] == b[0] == c[0] { PyLessTransitive(a[1..], b[1..], c[1..]); }
  }

  lemma SameHead(a: string, b: string)
    ensures forall i :: 0 < i <= |a| && i <= |b| && a[..i] == b[..i] ==> a[0] == b[0]
  {
    forall i | 0 < i <= |a| && i <= |b| && a[..i] == b[..i] ensures a[0] == b[0] {
      assert a[..i][0] == b[..i][0];
    }
  }

  /** The order is decided where the strings first differ, or by length where one begins the other. */
  lemma {:induction false} PyLessExactly(a: string, b: string)
    ensures PyLess(a, b) <==>
              exists i :: 0 <= i <= |a| && i < |b| && a[..i] == b[..i] && (i == |a| || a[i] < b[i])
  {
    SameHead(a, b);
    if a != [] && b != [] && a[0] == b[0] {
      PyLessExactly(a[1..], b[1..]);
      if i :| 0 <= i <= |a[1..]| && i < |b[1..]| && a[1..][..i] == b[1..][..i]
              && (i == |a[1..]| || a[1..][i] < b[1..][i])
      {
        assert a[..i + 1] == [a[0]] + a[1..][..i] && b[..i + 1] == [b[0]] + b[1..][..i];
        assert i + 1 == |a| || a[i + 1] < b[i + 1];
      }
      if j :| 0 <= j <= |a| && j < |b| && a[..j] == b[..j] && (j == |a| || a[j] < b[j]) {
        assert j > 0 && a[1..][..j - 1] == a[..j][1..] && b[1..][..j - 1] == b[..j][1..];
        assert j - 1 == |a[1..]| || a[1..][j - 1] < b[1..][j - 1];
      }
    } else if PyLess(a, b) {
      assert a[..0] == b[..0];
    }
  }

  /** The spellings are compared and sorted in Python; the database only ever sees their collation keys. */
  function Receive(collate: string -> Key, call: Call): Job
  {
    Job(call.actor, collate(call.senderId), collate(call.receiverId), !PyLess(call.receiverId, call.senderId),
        call.senderId == call.receiverId, Quantize(call.amount), call.txn, call.at)
  }

  function ReceiveAll(collate: string -> Key, calls: seq<Call>): seq<Job>
  {
    seq(|calls|, i requires 0 <= i < |calls| => Receive(collate, calls[i]))
  }

  function Work(collate: string -> Key, calls: seq<seq<Call>>): seq<seq<Job>>
  {
    seq(|calls|, i requires 0 <= i < |calls| => ReceiveAll(collate, calls[i]))
  }

  /** Letters fold to lower case, as under a case-insensitive collation. */
  function FoldCase(id: string): Key
  {
    seq(|id|, i requires 0 <= i < |id| => if 'A' <= id[i] <= 'Z' then id[i] - 'A' + 'a' else id[i])
  }

  function DollarFrom(actor: Actor, senderId: string, receiverId: string, txn: Key): Call
  {
    Call(actor, senderId, receiverId, 1.0, txn, 0)
  }

  lemma Dollar(actor: Actor, senderId: string, receiverId: string, txn: Key)
    ensures Receive(FoldCase, DollarFrom(actor, senderId, receiverId, txn))
         == Job(actor, FoldCase(senderId), FoldCase(receiverId), !PyLess(receiverId, senderId),
                senderId == receiverId, 100, txn, 0)
  {
  }

  /** An amount is turned away as not positive exactly up to and including half a cent. */
  lemma SmallAmountsRefused(db: Db, collate: string -> Key, call: Call)
    ensures Attempt(db, Receive(collate, call)) == (db, BadAmount) <==> call.amount <= 0.005
  {
    var f := (call.amount * 100.0).Floor;
    assert call.amount <= 0.005 <==> call.amount * 100.0 <= 0.5;
  }

  /** What the caller asks for, in the caller's own terms, can be done. */
  predicate Granted(db: Db, sender: Key, receiver: Key, cents: int, call: Call)
  {
    && call.senderId != call.receiverId && call.amount > 0.005
    && sender in db.accounts && receiver in db.accounts
    && (call.actor.role == "ADMIN" || call.actor.customer == Some(db.accounts[sender].customer))
    && db.accounts[sender].balance >= cents
    && (sender == receiver || db.accounts[receiver].balance + cents <= 999_999_999_999_999)
    && call.txn !in db.ledger
  }

  /**
   * Exactly when a call goes through: its ids differ, its amount is over half a cent, both accounts they collate to
   * exist, its actor is an admin or owns the first, which holds the rounded amount, the second has room for it, and
   * its ledger id is free. Then the ledger row says just what was asked for.
   */
  lemma CallDoneExactly(db: Db, collate: string -> Key, call: Call)
    ensures var (db', o) := Attempt(db, Receive(collate, call));
            var sender, receiver, cents := collate(call.senderId), collate(call.receiverId), Quantize(call.amount);
            && (o.Done? <==> Granted(db, sender, receiver, cents, call))
            && (o.Done? ==>
                  && o == Done(Row(sender, Some(receiver), Transfer, cents, call.at))
                  && db' == Db(Moved(db.accounts, sender, receiver, cents), db.ledger[call.txn := o.row]))
  {
    SmallAmountsRefused(db, collate, call);
    RefusedExactly(db, Receive(collate, call));
  }

  /** Between two existing accounts a transfer is forbidden exactly to those neither admin nor owner of the first. */
  lemma CallForbiddenExactly(db: Db, collate: string -> Key, call: Call)
    requires call.senderId != call.receiverId && call.amount > 0.005
    requires collate(call.senderId) in db.accounts && collate(call.receiverId) in db.accounts
    ensures Attempt(db, Receive(collate, call)) == (db, Forbidden) <==>
              && call.actor.role != "ADMIN"
              && call.actor.customer != Some(db.accounts[collate(call.senderId)].customer)
  {
    SmallAmountsRefused(db, collate, call);
    RefusedExactly(db, Receive(collate, call));
    ForbiddenExactly(db, Receive(collate, call));
  }

  /** The row locked first is the one whose spelling Python sorts first. */
  lemma LocksSortedFirst(collate: string -> Key, call: Call)
    ensures var job := Receive(collate, call);
            if PyLess(call.senderId, call.receiverId)
            then job.First() == collate(call.senderId) && job.Second() == collate(call.receiverId)
            else call.senderId != call.receiverId ==>
                   job.First() == collate(call.receiverId) && job.Second() == collate(call.senderId)
  {
    PyLessTrichotomy(call.senderId, call.receiverId);
  }

  /**
   * A transfer from a row to itself that nothing else stops is refused exactly when both ends are spelled alike;
   * spelled differently it goes through, leaves every balance as it was, and writes a ledger row.
   */
  lemma SelfTransfer(db: Db, collate: string -> Key, call: Call)
    requires collate(call.senderId) == collate(call.receiverId)
    requires var job := Receive(collate, call);
             && job.amount > 0 && job.sender in db.accounts && Allowed(job.actor, db.accounts[job.sender])
             && db.accounts[job.sender].balance >= job.amount && job.txn !in db.ledger
    ensures var (db', o) := Attempt(db, Receive(collate, call));
            if call.senderId == call.receiverId then o == SameAccount && db' == db
            else o.Done? && db'.accounts == db.accounts && db'.ledger != db.ledger
  {
    var job := Receive(collate, call);
    assert job.txn in db.ledger[job.txn := RowOf(job)];
  }

  /** For instance, from "a" to "A" under a case-insensitive collation. */
  lemma SelfTransferGoesThrough(balance: int)
    requires 100 <= balance <= MAX_CENTS
    ensures var db := Db(map["a" := Account("c1", balance)], map[]);
            var (db', o) := Attempt(db, Receive(FoldCase, DollarFrom(Actor("ADMIN", None), "a", "A", "t")));
            o.Done? && db'.accounts == db.accounts && "t" in db'.ledger
  {
    Dollar(Actor("ADMIN", None), "a", "A", "t");
    assert FoldCase("a") == "a" && FoldCase("A") == "a" && "a"[0] != "A"[0];
  }

  // ----- exact ids: no two spellings in use name one row -----

  function Ids(calls: seq<seq<Call>>): set<string>
  {
    (set i, j | 0 <= i < |calls| && 0 <= j < |calls[i]| :: calls[i][j].senderId)
    + (set i, j | 0 <= i < |calls| && 0 <= j < |calls[i]| :: calls[i][j].receiverId)
  }

  ghost predicate ExactIds(collate: string -> Key, ids: set<string>)
  {
    forall a, b :: a in ids && b in ids && collate(a) == collate(b) ==> a == b
  }

  ghost function Keys(collate: string -> Key, ids: set<string>): set<Key>
  {
    set id | id in ids :: collate(id)
  }

  ghost function Spelling(collate: string -> Key, ids: set<string>, k: Key): (id: string)
    requires k in Keys(collate, ids)
    ensures id in ids && collate(id) == k
  {
    var id :| id in ids && collate(id) == k;
    id
  }

  /** Rows ordered by the one spelling in use. */
  ghost function RowOrder(collate: string -> Key, ids: set<string>): (Key, Key) -> bool
  {
    (a: Key, b: Key) =>
      a in Keys(collate, ids) && b in Keys(collate, ids) && PyLess(Spelling(collate, ids, a), Spelling(collate, ids, b))
  }

  lemma RowOrderIsTotal(collate: string -> Key, ids: set<string>)
    requires ExactIds(collate, ids)
    ensures StrictTotalOrder(RowOrder(collate, ids), Keys(collate, ids))
  {
    var less, keys := RowOrder(collate, ids), Keys(collate, ids);
    forall a, b | a in keys && b in keys ensures !less(a, a) && (a != b ==> less(a, b) || less(b, a)) {
      PyLessTrichotomy(Spelling(collate, ids, a), Spelling(collate, ids, b));
    }
    forall a, b, c | a in keys && b in keys && c in keys && less(a, b) && less(b, c) ensures less(a, c) {
      PyLessTransitive(Spelling(collate, ids, a), Spelling(collate, ids, b), Spelling(collate, ids, c));
    }
  }

  lemma SortedLocksInOrder(collate: string -> Key, ids: set<string>, calls: seq<Call>)
    requires ExactIds(collate, ids)
    requires forall call :: call in calls ==> call.senderId in ids && call.receiverId in ids
    ensures InOrder(RowOrder(collate, ids), Keys(collate, ids), ReceiveAll(collate, calls))
  {
    var jobs := ReceiveAll(collate, calls);
    forall j | j in jobs
      ensures j.sender in Keys(collate, ids) && j.receiver in Keys(collate, ids)
      ensures j.First() == j.Second() || RowOrder(collate, ids)(j.First(), j.Second())
    {
      var i :| 0 <= i < |jobs| && jobs[i] == j;
      var call := calls[i];
      assert call in calls;
      PyLessTrichotomy(call.senderId, call.receiverId);
      assert Spelling(collate, ids, j.sender) == call.senderId && Spelling(collate, ids, j.receiver) == call.receiverId;
    }
  }

  /**
   * Sorting the two ids makes every run deadlock free, whatever the collation, the number of clients and calls and
   * the pool size, as long as no row is named by two spellings.
   */
  lemma SortedIdsNeverDeadlock(db: Db, pool: nat, collate: string -> Key, calls: seq<seq<Call>>, schedule: seq<Choice>,
                               d: nat) returns (c: nat)
    requires InRange(db.accounts) && pool > 0 && ExactIds(collate, Ids(calls))
    requires var s := Run(Start(db, pool, Work(collate, calls)), schedule); d < |s.clients| && s.clients[d].todo != []
    ensures var s := Run(Start(db, pool, Work(collate, calls)), schedule); c < |s.clients| && Advance(s, c).Some?
  {
    var ids, work := Ids(calls), Work(collate, calls);
    RowOrderIsTotal(collate, ids);
    forall i | 0 <= i < |work| ensures InOrder(RowOrder(collate, ids), Keys(collate, ids), work[i]) {
      forall call | call in calls[i] ensures call.senderId in ids && call.receiverId in ids {
        var j :| 0 <= j < |calls[i]| && calls[i][j] == call;
      }
      SortedLocksInOrder(collate, ids, calls[i]);
    }
    hide StrictTotalOrder, InOrder, Run, Advance, RowOrder, Keys, ExactIds;
    c := DeadlockFree(db, pool, work, schedule, RowOrder(collate, ids), Keys(collate, ids), d);
  }
}
