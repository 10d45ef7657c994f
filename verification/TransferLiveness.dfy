/** Progress of the transfer machine: pool accounting, deadlock freedom, termination and the state a run ends in. */
module TransferLiveness {
  import opened Sums
  import opened Bank
  import opened TransferMachine
  import opened TransferInvariant
  import opened TransferSafety

  /** A step rewrites one client record. */
  lemma StepShape(s: State, ch: Choice, s': State)
    requires Step(s, ch) == Some(s')
    ensures ch.client < |s.clients| == |s'.clients| && s'.clients == s.clients[ch.client := s'.clients[ch.client]]
  {
    hide Rollback, Debit, Credit, Lookup, Release, RowOf, Allowed;
  }

  // ----- what one step does to its client -----

  function Connections(): Client -> int
  {
    (cl: Client) => if cl.phase.Idle? || cl.phase.Waiting? then 0 else 1
  }

  function Left(p: Phase): nat
  {
    match p
    case Idle => 13
    case Waiting => 12
    case Connected => 11
    case Began => 10
    case FirstLocked(_) => 9
    case BothLocked(_, _) => 8
    case Checked => 7
    case Debited => 6
    case Credited => 5
    case Recorded => 4
    case Raised(_) => 3
    case Ended(_) => 2
  }

  function Remaining(): Client -> int
  {
    (cl: Client) => if cl.todo == [] then 0 else 13 * (|cl.todo| - 1) + Left(cl.phase)
  }

  /** A step that decides a call says so in the history; the answer reaches the client then or at close. */
  ghost predicate Decides(log: seq<Entry>, log': seq<Entry>, cl: Client, cl': Client, c: nat)
  {
    cl.todo != [] &&
    if log' == log then
      if cl.phase.Ended? then
        cl'.phase.Idle? && cl'.todo == cl.todo[1..] && cl'.answers == cl.answers + [cl.phase.outcome]
      else !cl'.phase.Ended? && cl'.todo == cl.todo && cl'.answers == cl.answers
    else
      && !cl.phase.Ended? && |log'| > 0
      && var o := log'[|log'| - 1].outcome;
         && log' == log + [Entry(c, cl.todo[0], o)]
         && ((cl'.phase == Ended(o) && cl'.todo == cl.todo && cl'.answers == cl.answers)
             || (cl'.phase.Idle? && cl'.todo == cl.todo[1..] && cl'.answers == cl.answers + [o]))
  }

  /** Connections are conserved, the client gets closer to the end, and decisions are recorded. */
  ghost predicate Local(s: State, s': State, c: nat)
  {
    && c < |s.clients| == |s'.clients|
    && s'.free + Connections()(s'.clients[c]) == s.free + Connections()(s.clients[c])
    && Remaining()(s'.clients[c]) < Remaining()(s.clients[c])
    && Decides(s.log, s'.log, s.clients[c], s'.clients[c], c)
  }

  predicate Early(p: Phase)
  {
    p.Idle? || p.Waiting? || p.Connected? || p.Began? || p.FirstLocked?
  }

  lemma EarlyLocal(s: State, c: nat, s': State)
    requires c < |s.clients| && Early(s.clients[c].phase) && Advance(s, c) == Some(s')
    ensures Local(s, s', c)
  {
  }

  predicate Last(p: Phase)
  {
    p.Recorded? || p.Raised? || p.Ended?
  }

  lemma WorkLocal(s: State, c: nat, s': State)
    requires c < |s.clients| && !Early(s.clients[c].phase) && !Last(s.clients[c].phase) && Advance(s, c) == Some(s')
    ensures Local(s, s', c)
  {
    hide Rollback, Debit, Credit, Lookup, Release, RowOf, Allowed;
  }

  lemma LastLocal(s: State, c: nat, s': State)
    requires c < |s.clients| && Last(s.clients[c].phase) && Advance(s, c) == Some(s')
    ensures Local(s, s', c)
  {
    hide Rollback, Lookup, Release, RowOf;
  }

  lemma FaultLocal(s: State, c: nat, s': State)
    requires c < |s.clients| && Fault(s, c) == Some(s')
    ensures Local(s, s', c)
  {
  }

  lemma StepLocal(s: State, ch: Choice, s': State)
    requires Step(s, ch) == Some(s')
    ensures Local(s, s', ch.client)
  {
    hide Advance, Fault, Local;
    if ch.fault { FaultLocal(s, ch.client, s'); }
    else if Early(s.clients[ch.client].phase) { EarlyLocal(s, ch.client, s'); }
    else if Last(s.clients[ch.client].phase) { LastLocal(s, ch.client, s'); }
    else { WorkLocal(s, ch.client, s'); }
  }

  // ----- the pool: every borrowed connection is accounted for -----

  ghost predicate PoolOk(s: State, pool: nat)
  {
    s.free + SumSeq(s.clients, Connections()) == pool
  }

  lemma PoolStep(s: State, pool: nat, ch: Choice, s': State)
    requires PoolOk(s, pool) && Step(s, ch) == Some(s')
    ensures PoolOk(s', pool)
  {
    StepShape(s, ch, s');
    StepLocal(s, ch, s');
    hide Step;
    SumSeqUpdate(s.clients, Connections(), ch.client, s'.clients[ch.client]);
  }

  lemma {:induction false} RunPool(db: Db, pool: nat, work: seq<seq<Job>>, schedule: seq<Choice>)
    ensures PoolOk(Run(Start(db, pool, work), schedule), pool)
    decreases |schedule|
  {
    if schedule == [] {
      SumSeqZero(Start(db, pool, work).clients, Connections());
    } else {
      var s := Run(Start(db, pool, work), schedule[..|schedule| - 1]);
      RunPool(db, pool, work, schedule[..|schedule| - 1]);
      hide PoolOk;
      match Step(s, schedule[|schedule| - 1])
      case None =>
      case Some(s') => PoolStep(s, pool, schedule[|schedule| - 1], s');
    }
  }

  // ----- answers: each call gets exactly one, in the client's own order -----

  function Calls(log: seq<Entry>, c: nat): seq<Entry>
  {
    if log == [] then []
    else
      var earlier, last := Calls(log[..|log| - 1], c), log[|log| - 1];
      if last.client == c then earlier + [last] else earlier
  }

  function Jobs(calls: seq<Entry>): seq<Job> { seq(|calls|, i requires 0 <= i < |calls| => calls[i].job) }

  function Outcomes(calls: seq<Entry>): seq<Outcome> { seq(|calls|, i requires 0 <= i < |calls| => calls[i].outcome) }

  /** Decided calls then undecided calls are the client's work list; answers are what the history says. */
  ghost predicate AnswersOk(log: seq<Entry>, cl: Client, c: nat, work: seq<Job>)
  {
    && (cl.phase.Ended? ==> cl.todo != [])
    && Jobs(Calls(log, c)) + (if cl.phase.Ended? then cl.todo[1..] else cl.todo) == work
    && Outcomes(Calls(log, c)) == cl.answers + (if cl.phase.Ended? then [cl.phase.outcome] else [])
  }

  lemma CallsAppend(log: seq<Entry>, e: Entry, c: nat)
    ensures Calls(log + [e], c) == if e.client == c then Calls(log, c) + [e] else Calls(log, c)
  {
    assert (log + [e])[..|log|] == log;
  }

  lemma AnswersStep(log: seq<Entry>, log': seq<Entry>, cl: Client, cl': Client, c: nat, work: seq<Job>)
    requires Decides(log, log', cl, cl', c) && AnswersOk(log, cl, c, work)
    ensures AnswersOk(log', cl', c, work)
  {
    if log' != log {
      var e := log'[|log'| - 1];
      CallsAppend(log, e, c);
      assert Jobs(Calls(log, c) + [e]) == Jobs(Calls(log, c)) + [e.job];
      assert Outcomes(Calls(log, c) + [e]) == Outcomes(Calls(log, c)) + [e.outcome];
      assert cl.todo == [e.job] + cl.todo[1..];
    }
  }

  lemma AnswersOthers(s: State, ch: Choice, s': State, d: nat, work: seq<Job>)
    requires Step(s, ch) == Some(s') && d < |s.clients| && d != ch.client && AnswersOk(s.log, s.clients[d], d, work)
    ensures d < |s'.clients| && AnswersOk(s'.log, s'.clients[d], d, work)
  {
    StepShape(s, ch, s');
    StepLocal(s, ch, s');
    hide Step;
    if s'.log != s.log {
      CallsAppend(s.log, s'.log[|s.log|], d);
    }
  }

  /** In every state of every run, each client's calls have been answered in order, once each, as the history says. */
  lemma {:induction false} AnsweredOnce(db: Db, pool: nat, work: seq<seq<Job>>, schedule: seq<Choice>)
    ensures var s := Run(Start(db, pool, work), schedule);
            |s.clients| == |work| &&
            forall c :: 0 <= c < |work| ==> AnswersOk(s.log, s.clients[c], c, work[c])
    decreases |schedule|
  {
    if schedule != [] {
      var s, ch := Run(Start(db, pool, work), schedule[..|schedule| - 1]), schedule[|schedule| - 1];
      AnsweredOnce(db, pool, work, schedule[..|schedule| - 1]);
      match Step(s, ch)
      case None =>
      case Some(s') =>
        StepShape(s, ch, s');
        StepLocal(s, ch, s');
        hide AnswersOk, Step, Decides;
        forall c | 0 <= c < |work| ensures AnswersOk(s'.log, s'.clients[c], c, work[c]) {
          if c == ch.client {
            AnswersStep(s.log, s'.log, s.clients[c], s'.clients[c], c, work[c]);
          } else {
            AnswersOthers(s, ch, s', c, work[c]);
          }
        }
    }
  }

  /** Client c's next call, while undecided, is the one after those the history lists for it. */
  lemma NextCall(db: Db, pool: nat, work: seq<seq<Job>>, schedule: seq<Choice>, c: nat)
    requires var s := Run(Start(db, pool, work), schedule);
             c < |s.clients| && s.clients[c].todo != [] && !s.clients[c].phase.Ended?
    ensures var s := Run(Start(db, pool, work), schedule);
            c < |work| && |Calls(s.log, c)| < |work[c]| && work[c][|Calls(s.log, c)|] == s.clients[c].todo[0]
  {
    var s := Run(Start(db, pool, work), schedule);
    AnsweredOnce(db, pool, work, schedule);
    hide Run, Start;
    assert AnswersOk(s.log, s.clients[c], c, work[c]);
    var n := |Calls(s.log, c)|;
    assert (Jobs(Calls(s.log, c)) + s.clients[c].todo)[n] == s.clients[c].todo[0];
  }

  // ----- termination -----

  ghost function Measure(s: State): int
  {
    SumSeq(s.clients, Remaining())
  }

  lemma MeasureDecreases(s: State, ch: Choice, s': State)
    requires Step(s, ch) == Some(s')
    ensures 0 <= Measure(s') < Measure(s)
  {
    StepShape(s, ch, s');
    StepLocal(s, ch, s');
    hide Step;
    SumSeqUpdate(s.clients, Remaining(), ch.client, s'.clients[ch.client]);
    SumSeqNonNegative(s'.clients, Remaining());
  }

  /** Every choice of the schedule is a step somebody takes. */
  predicate Productive(s: State, schedule: seq<Choice>)
  {
    forall i :: 0 <= i < |schedule| ==> Step(Run(s, schedule[..i]), schedule[i]).Some?
  }

  /** Termination: faults and all, no run has more steps than the measure of its start. */
  lemma {:induction false} RunsAreBounded(s: State, schedule: seq<Choice>)
    requires Productive(s, schedule)
    ensures |schedule| + Measure(Run(s, schedule)) <= Measure(s)
    decreases |schedule|
  {
    if schedule != [] {
      var shorter := schedule[..|schedule| - 1];
      assert forall i :: 0 <= i < |shorter| ==> shorter[..i] == schedule[..i];
      RunsAreBounded(s, shorter);
      assert Step(Run(s, schedule[..|schedule| - 1]), schedule[|schedule| - 1]).Some?;
      MeasureDecreases(Run(s, shorter), schedule[|schedule| - 1], Run(s, schedule));
    }
  }

  // ----- deadlock freedom -----

  ghost predicate StrictTotalOrder(less: (Key, Key) -> bool, keys: set<Key>)
  {
    && (forall a :: a in keys ==> !less(a, a))
    && (forall a, b :: a in keys && b in keys && a != b ==> less(a, b) || less(b, a))
    && (forall a, b, c :: a in keys && b in keys && c in keys && less(a, b) && less(b, c) ==> less(a, c))
  }

  /** Both rows of every call in the lists are known, and are locked in the given order. */
  ghost predicate InOrder(less: (Key, Key) -> bool, keys: set<Key>, jobs: seq<Job>)
  {
    forall j :: j in jobs ==>
      j.sender in keys && j.receiver in keys && (j.First() == j.Second() || less(j.First(), j.Second()))
  }

  ghost predicate AllInOrder(less: (Key, Key) -> bool, keys: set<Key>, clients: seq<Client>)
  {
    forall c :: 0 <= c < |clients| ==> InOrder(less, keys, clients[c].todo)
  }

  lemma {:induction false} Greatest(less: (Key, Key) -> bool, keys: set<Key>, some: set<Key>) returns (g: Key)
    requires StrictTotalOrder(less, keys) && some <= keys && some != {}
    ensures g in some && forall k :: k in some && k != g ==> less(k, g)
    decreases |some|
  {
    var k :| k in some;
    if some == {k} {
      g := k;
    } else {
      var h := Greatest(less, keys, some - {k});
      g := if less(h, k) then k else h;
    }
  }

  /** The holder of the greatest locked row can move. */
  lemma HolderMoves(s: State, base: Db, less: (Key, Key) -> bool, keys: set<Key>) returns (c: nat, g: Key)
    requires Inv(s, base) && StrictTotalOrder(less, keys)
    requires AllInOrder(less, keys, s.clients)
    requires s.locks != map[]
    ensures g in s.locks && c == s.locks[g] && forall k :: k in s.locks && k != g ==> less(k, g)
    ensures c < |s.clients| && Advance(s, c).Some?
  {
    forall k | k in s.locks ensures k in keys { assert HeldBy(s, base, k); }
    g := Greatest(less, keys, s.locks.Keys);
    assert HeldBy(s, base, g);
    c := s.locks[g];
    hide Inv, OwnOk;
    var job := s.clients[c].todo[0];
    assert InOrder(less, keys, s.clients[c].todo) && job in s.clients[c].todo;
  }

  /** A locked row is one its holder may have locked. */
  ghost predicate HeldBy(s: State, base: Db, k: Key)
    requires k in s.locks && Inv(s, base)
    ensures HeldBy(s, base, k) && s.locks[k] < |s.clients| && MayHold(s.clients[s.locks[k]], k)
  {
    assert OwnOk(s, base, s.clients[s.locks[k]], s.locks[k]);
    assert Holds(s.locks, s.locks[k], k);
    true
  }

  /** With no row locked, only an empty pool could stop a client, and then some other client has a connection. */
  lemma UnlockedMoves(s: State, base: Db, pool: nat, d: nat) returns (c: nat)
    requires Inv(s, base) && PoolOk(s, pool) && pool > 0
    requires s.locks == map[] && d < |s.clients| && s.clients[d].todo != []
    ensures c < |s.clients| && Advance(s, c).Some?
    ensures c == d || (s.clients[d].phase.Waiting? && s.free == 0 && Connections()(s.clients[c]) == 1)
  {
    if Advance(s, d).Some? { return d; }
    assert s.clients[d].phase.Waiting? && s.free == 0;
    if forall i :: 0 <= i < |s.clients| ==> Connections()(s.clients[i]) == 0 {
      SumSeqZero(s.clients, Connections());
    }
    c :| 0 <= c < |s.clients| && Connections()(s.clients[c]) != 0;
    assert OwnOk(s, base, s.clients[c], c);
  }

  /**
   * Deadlock freedom: in every state of every run with an unfinished call some client can take a normal step,
   * for any pool size from 1 up, provided all calls lock their two rows along one total order.
   */
  lemma DeadlockFree(db: Db, pool: nat, work: seq<seq<Job>>, schedule: seq<Choice>,
                     less: (Key, Key) -> bool, keys: set<Key>, d: nat) returns (c: nat)
    requires InRange(db.accounts) && pool > 0 && StrictTotalOrder(less, keys)
    requires forall i :: 0 <= i < |work| ==> InOrder(less, keys, work[i])
    requires var s := Run(Start(db, pool, work), schedule); d < |s.clients| && s.clients[d].todo != []
    ensures var s := Run(Start(db, pool, work), schedule); c < |s.clients| && Advance(s, c).Some?
  {
    var s := Run(Start(db, pool, work), schedule);
    RunInv(db, pool, work, schedule);
    RunPool(db, pool, work, schedule);
    StillInOrder(db, pool, work, schedule, less, keys);
    hide Inv, PoolOk, InOrder, StrictTotalOrder, Agrees, Run, Advance;
    if s.locks == map[] {
      c := UnlockedMoves(s, Replay(db, s.log), pool, d);
    } else {
      var mover, row := HolderMoves(s, Replay(db, s.log), less, keys);
      c := mover;
    }
  }

  lemma {:induction false} StillInOrder(db: Db, pool: nat, work: seq<seq<Job>>, schedule: seq<Choice>,
                                        less: (Key, Key) -> bool, keys: set<Key>)
    requires forall i :: 0 <= i < |work| ==> InOrder(less, keys, work[i])
    ensures AllInOrder(less, keys, Run(Start(db, pool, work), schedule).clients)
    decreases |schedule|
  {
    if schedule != [] {
      var s, ch := Run(Start(db, pool, work), schedule[..|schedule| - 1]), schedule[|schedule| - 1];
      StillInOrder(db, pool, work, schedule[..|schedule| - 1], less, keys);
      match Step(s, ch)
      case None =>
      case Some(s') => OrderStep(s, ch, s', less, keys);
    }
  }

  lemma OrderStep(s: State, ch: Choice, s': State, less: (Key, Key) -> bool, keys: set<Key>)
    requires AllInOrder(less, keys, s.clients) && Step(s, ch) == Some(s')
    ensures AllInOrder(less, keys, s'.clients)
  {
    StepShape(s, ch, s');
    StepLocal(s, ch, s');
    hide Step;
    forall c | 0 <= c < |s'.clients| ensures InOrder(less, keys, s'.clients[c].todo) {
      assert InOrder(less, keys, s.clients[c].todo);
      assert forall j :: j in s'.clients[c].todo ==> j in s.clients[c].todo;
    }
  }

  /**
   * Clean end: where no client can take a normal step, every call is answered, no row is locked, every connection is
   * back in the pool, and the tables are the serial replay of the history with the starting total.
   */
  lemma CleanEnd(db: Db, pool: nat, work: seq<seq<Job>>, schedule: seq<Choice>,
                 less: (Key, Key) -> bool, keys: set<Key>)
    requires InRange(db.accounts) && pool > 0 && StrictTotalOrder(less, keys)
    requires forall i :: 0 <= i < |work| ==> InOrder(less, keys, work[i])
    requires var s := Run(Start(db, pool, work), schedule); forall c :: 0 <= c < |s.clients| ==> Advance(s, c) == None
    ensures var s := Run(Start(db, pool, work), schedule);
            && |s.clients| == |work|
            && (forall c :: 0 <= c < |work| ==>
                  Jobs(Calls(s.log, c)) == work[c] && Outcomes(Calls(s.log, c)) == s.clients[c].answers)
            && s.locks == map[] && s.inserts == map[] && s.free == pool
            && s.db == Replay(db, s.log) && Agrees(db, s.log)
            && Total(s.db.accounts) == Total(db.accounts)
  {
    var s := Run(Start(db, pool, work), schedule);
    var base := Replay(db, s.log);
    forall c | 0 <= c < |s.clients| ensures s.clients[c].todo == [] {
      if s.clients[c].todo != [] {
        var moving := DeadlockFree(db, pool, work, schedule, less, keys, c);
      }
    }
    RunInv(db, pool, work, schedule);
    RunPool(db, pool, work, schedule);
    AnsweredOnce(db, pool, work, schedule);
    ReplayConserves(db, s.log);
    AllIdle(s, base, pool);
    hide Inv, Run, Advance, Agrees, PoolOk;
    forall c | 0 <= c < |work| ensures Jobs(Calls(s.log, c)) == work[c] {
      assert AnswersOk(s.log, s.clients[c], c, work[c]);
    }
  }

  /** Every run, whatever has failed in it so far, has a continuation without faults in which every call is answered. */
  lemma {:induction false} Completes(db: Db, pool: nat, work: seq<seq<Job>>, schedule: seq<Choice>,
                                     less: (Key, Key) -> bool, keys: set<Key>) returns (rest: seq<Choice>)
    requires InRange(db.accounts) && pool > 0 && StrictTotalOrder(less, keys)
    requires forall i :: 0 <= i < |work| ==> InOrder(less, keys, work[i])
    ensures forall ch :: ch in rest ==> !ch.fault
    ensures var s := Run(Start(db, pool, work), schedule + rest);
            forall c :: 0 <= c < |s.clients| ==> s.clients[c].todo == []
    decreases Measure(Run(Start(db, pool, work), schedule))
  {
    var s := Run(Start(db, pool, work), schedule);
    hide Start, Advance, StrictTotalOrder, InOrder, Measure;
    if d :| 0 <= d < |s.clients| && s.clients[d].todo != [] {
      var c := DeadlockFree(db, pool, work, schedule, less, keys, d);
      var longer := schedule + [Choice(c, false)];
      assert longer[..|longer| - 1] == schedule;
      MeasureDecreases(s, Choice(c, false), Run(Start(db, pool, work), longer));
      var more := Completes(db, pool, work, longer, less, keys);
      rest := [Choice(c, false)] + more;
      assert schedule + rest == longer + more;
    } else {
      rest := [];
      assert schedule + rest == schedule;
    }
  }

  lemma AllIdle(s: State, base: Db, pool: nat)
    requires Inv(s, base) && PoolOk(s, pool)
    requires forall c :: 0 <= c < |s.clients| ==> s.clients[c].phase.Idle? || s.clients[c].todo == []
    ensures s.locks == map[] && s.inserts == map[] && s.free == pool && s.db == base
    ensures forall c :: 0 <= c < |s.clients| ==> s.clients[c].phase.Idle?
  {
    forall c | 0 <= c < |s.clients| ensures s.clients[c].phase.Idle? && s.clients[c].undo == [] {
      assert OwnOk(s, base, s.clients[c], c);
    }
    forall k | k in s.locks ensures false { assert HeldBy(s, base, k); }
    forall t | t in s.inserts ensures false {
      assert OwnOk(s, base, s.clients[s.inserts[t]], s.inserts[t]);
      assert Holds(s.inserts, s.inserts[t], t);
    }
    NothingOpen(s, base);
    SumSeqZero(s.clients, Connections());
  }
}
