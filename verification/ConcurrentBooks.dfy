/** Concurrent transfers keep the books: what a run commits is one history of moves, and every account adds up. */
module ConcurrentBooks {
  import opened Bank
  import opened Books
  import opened TransferMachine
  import opened TransferSafety

  /** The decided calls of a history, as operations of the books. */
  function Moves(log: seq<Entry>): seq<Op>
  {
    if log == [] then []
    else
      var earlier, last := Moves(log[..|log| - 1]), log[|log| - 1];
      if Accident(last.outcome) then earlier else earlier + [Move(last.job)]
  }

  lemma {:induction false} ReplayIsPlay(db: Db, log: seq<Entry>)
    ensures Replay(db, log) == Play(db, Moves(log))
  {
    if log != [] {
      var earlier, last := Moves(log[..|log| - 1]), log[|log| - 1];
      ReplayIsPlay(db, log[..|log| - 1]);
      assert (earlier + [Move(last.job)])[..|earlier|] == earlier;
    }
  }

  lemma {:induction false} MovesNoteNothing(db: Db, log: seq<Entry>, a: Key)
    ensures Notes(db, Moves(log), a) == Opening(db, a)
  {
    if log != [] {
      var earlier, last := Moves(log[..|log| - 1]), log[|log| - 1];
      MovesNoteNothing(db, log[..|log| - 1], a);
      assert (earlier + [Move(last.job)])[..|earlier|] == earlier;
    }
  }

  /**
   * Stop any run of any number of clients anywhere and roll back what is open: the schema's constraints hold, and each
   * account's balance has moved by exactly what the ledger rows now there, less those there before, say it gained.
   */
  lemma {:induction false} ConcurrentRunsReconcile(db: Db, pool: nat, work: seq<seq<Job>>, schedule: seq<Choice>,
                                                   a: Key)
    requires Sound(db) && a in db.accounts
    ensures var s := Run(Start(db, pool, work), schedule);
            var end := Recover(s.db, s.clients);
            && Sound(end) && a in end.accounts
            && end.accounts[a].balance - db.accounts[a].balance == Net(end.ledger, a) - Net(db.ledger, a)
  {
    var s := Run(Start(db, pool, work), schedule);
    Serializability(db, pool, work, schedule);
    hide Run, Start, Agrees;
    ReplayIsPlay(db, s.log);
    MovesNoteNothing(db, s.log, a);
    PlaySound(db, Moves(s.log));
    BooksReconcile(db, Moves(s.log), a);
    ReplayConserves(db, s.log);
  }
}
