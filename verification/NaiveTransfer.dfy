/** The unsafe original as a step machine over the same account table, to show what the protocol buys. */
module NaiveTransfer {
  import opened Sums
  import opened Bank

  datatype Order = Order(sender: Key, receiver: Key, amount: int)

  datatype End = Ok | CleanReject | NoSender | ServerError(error: Outcome) | Stopped

  /** `since` is how many committed writes there were when the balance was read. */
  datatype Phase =
    | Fresh                              // SELECT balance
    | Read(seen: int, since: nat)        // the check in Python
    | Passed(seen: int, since: nat)      // debit UPDATE and commit
    | Paid                               // credit UPDATE and commit
    | Over(end: End)

  datatype Client = Client(order: Order, phase: Phase)

  /** History of committed writes. */
  datatype Entry = Entry(client: nat, key: Key, delta: int)

  /** Why money that left a sender will never arrive. */
  datatype Loss = Loss(amount: int, end: End)

  datatype State = State(accounts: map<Key, Account>, clients: seq<Client>, writes: seq<Entry>, losses: seq<Loss>)

  function Start(accounts: map<Key, Account>, orders: seq<Order>): State
  {
    State(accounts, seq(|orders|, i requires 0 <= i < |orders| => Client(orders[i], Fresh)), [], [])
  }

  function At(s: State, c: nat, p: Phase): State
    requires c < |s.clients|
  {
    s.(clients := s.clients[c := s.clients[c].(phase := p)])
  }

  /** One statement, committed at once; or, with `stop`, the process dies instead. */
  function Step(s: State, c: nat, stop: bool): State
    requires c < |s.clients|
  {
    var o := s.clients[c].order;
    match s.clients[c].phase
    case Over(_) => s
    case Fresh =>
      if stop then At(s, c, Over(Stopped))
      else if o.sender !in s.accounts then At(s, c, Over(NoSender))
      else At(s, c, Read(s.accounts[o.sender].balance, |s.writes|))
    case Read(seen, since) =>
      if stop then At(s, c, Over(Stopped))
      else if seen < o.amount then At(s, c, Over(CleanReject))
      else At(s, c, Passed(seen, since))
    case Passed(_, _) =>
      if stop then At(s, c, Over(Stopped))
      else if o.sender !in s.accounts then At(s, c, Paid)
      else
        (match WriteBalance(s.accounts, o.sender, s.accounts[o.sender].balance - o.amount)
         case Refused(e) => At(s, c, Over(ServerError(e)))
         case Changed(accounts, _) =>
           At(s, c, Paid).(accounts := accounts, writes := s.writes + [Entry(c, o.sender, -o.amount)]))
    case Paid =>
      if stop then At(s, c, Over(Stopped)).(losses := s.losses + [Loss(o.amount, Stopped)])
      else if o.receiver !in s.accounts then At(s, c, Over(Ok)).(losses := s.losses + [Loss(o.amount, Ok)])
      else
        (match WriteBalance(s.accounts, o.receiver, s.accounts[o.receiver].balance + o.amount)
         case Refused(e) => At(s, c, Over(ServerError(e))).(losses := s.losses + [Loss(o.amount, ServerError(e))])
         case Changed(accounts, _) =>
           At(s, c, Over(Ok)).(accounts := accounts, writes := s.writes + [Entry(c, o.receiver, o.amount)]))
  }

  datatype Choice = Choice(client: nat, stop: bool)

  function Run(s: State, schedule: seq<Choice>): State
    decreases |schedule|
  {
    if schedule == [] then s
    else
      var before, ch := Run(s, schedule[..|schedule| - 1]), schedule[|schedule| - 1];
      if ch.client < |before.clients| then Step(before, ch.client, ch.stop) else before
  }

  lemma RunAppend(s: State, schedule: seq<Choice>, ch: Choice)
    requires ch.client < |Run(s, schedule).clients|
    ensures Run(s, schedule + [ch]) == Step(Run(s, schedule), ch.client, ch.stop)
  {
    assert (schedule + [ch])[..|schedule|] == schedule;
  }

  // ----- conservation, and the one way to break it -----

  function InFlight(): Client -> int { (cl: Client) => if cl.phase.Paid? then cl.order.amount else 0 }

  function LossAmount(): Loss -> int { (l: Loss) => l.amount }

  /** Writes since the read explain the difference, and none of them is the reader's own. */
  ghost predicate ReadOk(s: State, c: nat, seen: int, since: nat)
    requires c < |s.clients|
  {
    var k := s.clients[c].order.sender;
    && since <= |s.writes| && k in s.accounts && seen <= MAX_CENTS
    && s.accounts[k].balance == seen + SumSeq(s.writes[since..], DeltaTo(k))
    && forall i :: since <= i < |s.writes| ==> s.writes[i].client != c
  }

  function DeltaTo(k: Key): Entry -> int { (w: Entry) => if w.key == k then w.delta else 0 }

  ghost predicate ClientOk(s: State, c: nat)
    requires c < |s.clients|
  {
    match s.clients[c].phase
    case Read(seen, since) => ReadOk(s, c, seen, since)
    case Passed(seen, since) => ReadOk(s, c, seen, since) && seen >= s.clients[c].order.amount
    case Paid => s.clients[c].order.sender in s.accounts
    case _ => true
  }

  /** Committed balances, money between two commits, and money lost. */
  ghost function Money(s: State): int
  {
    Total(s.accounts) + SumSeq(s.clients, InFlight()) + SumSeq(s.losses, LossAmount())
  }

  ghost predicate Inv(s: State, accounts: map<Key, Account>, orders: seq<Order>)
  {
    && InRange(s.accounts) && s.accounts.Keys == accounts.Keys
    && |s.clients| == |orders|
    && Money(s) == Total(accounts)
    && forall c :: 0 <= c < |orders| ==> s.clients[c].order == orders[c] && ClientOk(s, c)
  }

  /** The step from s to s' commits one write of client c, or none; and only c's record changes. */
  ghost predicate OneWrite(s: State, s': State, c: nat)
    requires c < |s.clients|
  {
    && |s'.clients| == |s.clients| && s'.clients == s.clients[c := s'.clients[c]]
    && s'.clients[c].order == s.clients[c].order
    && ((s'.writes == s.writes && s'.accounts == s.accounts)
        || (&& |s'.writes| == |s.writes| + 1 && s'.writes == s.writes + [s'.writes[|s.writes|]]
            && var w := s'.writes[|s.writes|];
               && w.client == c && w.key in s.accounts
               && var row := s.accounts[w.key];
                  s'.accounts == s.accounts[w.key := row.(balance := row.balance + w.delta)]))
  }

  lemma StepShape(s: State, c: nat, stop: bool)
    requires InRange(s.accounts) && c < |s.clients|
    ensures OneWrite(s, Step(s, c, stop), c)
  {
    hide InRange;
  }

  lemma StepRange(s: State, c: nat, stop: bool)
    requires InRange(s.accounts) && c < |s.clients|
    ensures InRange(Step(s, c, stop).accounts) && Step(s, c, stop).accounts.Keys == s.accounts.Keys
  {
  }

  lemma ReadFrame(s: State, s': State, c: nat, d: nat, seen: int, since: nat)
    requires c < |s.clients| && OneWrite(s, s', c) && d < |s.clients| && d != c && ReadOk(s, d, seen, since)
    ensures ReadOk(s', d, seen, since)
  {
    var k := s.clients[d].order.sender;
    if s'.writes != s.writes {
      var w := s'.writes[|s.writes|];
      assert s'.writes[since..] == s.writes[since..] + [w];
      SumSeqAppend(s.writes[since..], [w], DeltaTo(k));
    }
  }

  lemma StepClient(s: State, c: nat, stop: bool)
    requires c < |s.clients| && InRange(s.accounts) && ClientOk(s, c)
    ensures |Step(s, c, stop).clients| == |s.clients| && ClientOk(Step(s, c, stop), c)
  {
    if s.clients[c].phase.Fresh? {
      assert s.writes[|s.writes|..] == [];
    }
  }

  lemma StepMoney(s: State, c: nat, stop: bool)
    requires c < |s.clients| && InRange(s.accounts) && ClientOk(s, c)
    ensures Money(Step(s, c, stop)) == Money(s)
  {
    var s' := Step(s, c, stop);
    StepShape(s, c, stop);
    SumSeqUpdate(s.clients, InFlight(), c, s'.clients[c]);
    if s'.writes != s.writes {
      var w := s'.writes[|s.writes|];
      TotalWrite(s.accounts, w.key, s.accounts[w.key].balance + w.delta);
    }
    if s'.losses != s.losses {
      var l := s'.losses[|s.losses|];
      assert s'.losses == s.losses + [l];
      SumSeqAppend(s.losses, [l], LossAmount());
    }
  }

  lemma StepInv(s: State, c: nat, stop: bool, accounts: map<Key, Account>, orders: seq<Order>)
    requires Inv(s, accounts, orders) && c < |s.clients|
    ensures Inv(Step(s, c, stop), accounts, orders)
  {
    var s' := Step(s, c, stop);
    StepShape(s, c, stop);
    StepRange(s, c, stop);
    StepClient(s, c, stop);
    StepMoney(s, c, stop);
    hide Step;
    forall d | 0 <= d < |orders| ensures s'.clients[d].order == orders[d] && ClientOk(s', d) {
      if d != c {
        match s.clients[d].phase
        case Read(seen, since) => ReadFrame(s, s', c, d, seen, since);
        case Passed(seen, since) => ReadFrame(s, s', c, d, seen, since);
        case _ =>
      }
    }
  }

  lemma {:induction false} RunInv(accounts: map<Key, Account>, orders: seq<Order>, schedule: seq<Choice>)
    requires InRange(accounts)
    ensures Inv(Run(Start(accounts, orders), schedule), accounts, orders)
    decreases |schedule|
  {
    if schedule == [] {
      SumSeqZero(Start(accounts, orders).clients, InFlight());
    } else {
      var before, ch := Run(Start(accounts, orders), schedule[..|schedule| - 1]), schedule[|schedule| - 1];
      RunInv(accounts, orders, schedule[..|schedule| - 1]);
      hide Inv;
      if ch.client < |before.clients| { StepInv(before, ch.client, ch.stop, accounts, orders); }
    }
  }

  /**
   * Accounting of every naive run: committed balances, money between the two commits, and money lost for good make
   * the starting total; and no balance leaves its range.
   */
  lemma {:induction false} NaiveConservation(accounts: map<Key, Account>, orders: seq<Order>, schedule: seq<Choice>)
    requires InRange(accounts)
    ensures var s := Run(Start(accounts, orders), schedule);
            && Total(s.accounts) + SumSeq(s.clients, InFlight()) + SumSeq(s.losses, LossAmount()) == Total(accounts)
            && InRange(s.accounts)
  {
    RunInv(accounts, orders, schedule);
  }

  /** The client paid and its receiver was never credited, because the credit was refused or hit no row. */
  predicate LostMoney(accounts: map<Key, Account>, cl: Client)
  {
    match cl.phase
    case Over(ServerError(e)) => e == OutOfRange
    case Over(Ok) => cl.order.receiver !in accounts
    case _ => false
  }

  lemma StepLoses(s: State, c: nat)
    requires InRange(s.accounts) && c < |s.clients| && ClientOk(s, c) && s.clients[c].order.amount > 0
    ensures var s' := Step(s, c, false);
            && |s'.clients| == |s.clients| && |s'.losses| >= |s.losses|
            && (LostMoney(s'.accounts, s'.clients[c]) <==>
                  |s'.losses| > |s.losses| || LostMoney(s.accounts, s.clients[c]))
  {
  }

  /**
   * Without a stop and with positive amounts, money is lost exactly when some credit was refused for range or went to
   * an account that does not exist; otherwise balances plus money in flight are what they were at the start.
   */
  lemma {:induction false} NothingLostWithoutAStop(accounts: map<Key, Account>, orders: seq<Order>,
                                                   schedule: seq<Choice>)
    requires InRange(accounts) && forall o :: o in orders ==> o.amount > 0
    requires forall ch :: ch in schedule ==> !ch.stop
    ensures var s := Run(Start(accounts, orders), schedule);
            && (s.losses == [] <==> forall c :: 0 <= c < |s.clients| ==> !LostMoney(s.accounts, s.clients[c]))
            && (s.losses == [] ==> Total(s.accounts) + SumSeq(s.clients, InFlight()) == Total(accounts))
    decreases |schedule|
  {
    RunInv(accounts, orders, schedule);
    if schedule != [] {
      var before, ch := Run(Start(accounts, orders), schedule[..|schedule| - 1]), schedule[|schedule| - 1];
      NothingLostWithoutAStop(accounts, orders, schedule[..|schedule| - 1]);
      RunInv(accounts, orders, schedule[..|schedule| - 1]);
      assert ch in schedule;
      if ch.client < |before.clients| { LossShows(before, ch.client, accounts, orders); }
    }
  }

  lemma LossShows(s: State, c: nat, accounts: map<Key, Account>, orders: seq<Order>)
    requires Inv(s, accounts, orders) && c < |s.clients| && forall o :: o in orders ==> o.amount > 0
    requires s.losses == [] <==> forall d :: 0 <= d < |s.clients| ==> !LostMoney(s.accounts, s.clients[d])
    ensures var s' := Step(s, c, false);
            s'.losses == [] <==> forall d :: 0 <= d < |s'.clients| ==> !LostMoney(s'.accounts, s'.clients[d])
  {
    var s' := Step(s, c, false);
    assert orders[c] in orders;
    StepLoses(s, c);
    StepShape(s, c, false);
    StepRange(s, c, false);
    hide Step, Inv;
    forall d | 0 <= d < |s.clients| && d != c
      ensures LostMoney(s'.accounts, s'.clients[d]) <==> LostMoney(s.accounts, s.clients[d])
    {
      assert s'.clients[d] == s.clients[d];
    }
    hide LostMoney;
  }

  /** Positive amounts to existing receivers, in a bank whose total fits in one balance. */
  ghost predicate Benign(accounts: map<Key, Account>, orders: seq<Order>)
  {
    Total(accounts) <= MAX_CENTS && forall o :: o in orders ==> o.amount > 0 && o.receiver in accounts
  }

  lemma CreditFits(s: State, c: nat, accounts: map<Key, Account>, orders: seq<Order>)
    requires Inv(s, accounts, orders) && Benign(accounts, orders) && s.losses == []
    requires c < |s.clients| && s.clients[c].phase.Paid?
    ensures s.clients[c].order.receiver in s.accounts
    ensures s.accounts[s.clients[c].order.receiver].balance + s.clients[c].order.amount <= MAX_CENTS
  {
    var k := s.clients[c].order.receiver;
    assert orders[c] in orders;
    SumMapRemove(s.accounts, Balance(), k);
    SumMapNonNegative(s.accounts - {k}, Balance());
    forall cl | cl in s.clients ensures InFlight()(cl) >= 0 {
      var i :| 0 <= i < |s.clients| && s.clients[i] == cl;
      assert orders[i] in orders;
    }
    SumSeqBounds(s.clients, InFlight(), c);
  }

  lemma BenignStep(s: State, c: nat, accounts: map<Key, Account>, orders: seq<Order>)
    requires Inv(s, accounts, orders) && Benign(accounts, orders) && s.losses == [] && c < |s.clients|
    ensures Step(s, c, false).losses == []
  {
    assert orders[c] in orders;
    if s.clients[c].phase.Paid? { CreditFits(s, c, accounts, orders); }
  }

  /** So no interleaving of benign orders loses a cent. */
  lemma {:induction false} BenignOrdersLoseNothing(accounts: map<Key, Account>, orders: seq<Order>,
                                                   schedule: seq<Choice>)
    requires InRange(accounts) && Benign(accounts, orders)
    requires forall ch :: ch in schedule ==> !ch.stop
    ensures var s := Run(Start(accounts, orders), schedule);
            s.losses == [] && Total(s.accounts) + SumSeq(s.clients, InFlight()) == Total(accounts)
    decreases |schedule|
  {
    RunInv(accounts, orders, schedule);
    if schedule != [] {
      var before, ch := Run(Start(accounts, orders), schedule[..|schedule| - 1]), schedule[|schedule| - 1];
      BenignOrdersLoseNothing(accounts, orders, schedule[..|schedule| - 1]);
      RunInv(accounts, orders, schedule[..|schedule| - 1]);
      assert ch in schedule;
      hide Step, Inv, Benign;
      if ch.client < |before.clients| { BenignStep(before, ch.client, accounts, orders); }
    }
  }

  // ----- the race -----

  /**
   * A debit that passed the Python check and is then refused by the CHECK was overtaken: since its read, another
   * client committed a write that took money out of the same account.
   */
  lemma RefusalMeansRace(accounts: map<Key, Account>, orders: seq<Order>, schedule: seq<Choice>, c: nat)
    returns (i: nat)
    requires InRange(accounts)
    requires var s := Run(Start(accounts, orders), schedule);
             && c < |s.clients| == |Step(s, c, false).clients| && s.clients[c].phase.Passed?
             && Step(s, c, false).clients[c].phase == Over(ServerError(CheckFailed))
    ensures var s := Run(Start(accounts, orders), schedule);
            && s.clients[c].phase.since <= i < |s.writes|
            && s.writes[i].client != c && s.writes[i].key == s.clients[c].order.sender && s.writes[i].delta < 0
  {
    RunInv(accounts, orders, schedule);
    hide Run;
    i := Overtaken(Run(Start(accounts, orders), schedule), c);
  }

  lemma Overtaken(s: State, c: nat) returns (i: nat)
    requires InRange(s.accounts) && c < |s.clients| && ClientOk(s, c) && s.clients[c].phase.Passed?
    requires |Step(s, c, false).clients| == |s.clients|
    requires Step(s, c, false).clients[c].phase == Over(ServerError(CheckFailed))
    ensures s.clients[c].phase.since <= i < |s.writes|
    ensures s.writes[i].client != c && s.writes[i].key == s.clients[c].order.sender && s.writes[i].delta < 0
  {
    var since := s.clients[c].phase.since;
    var j := NegativeTerm(s.writes[since..], DeltaTo(s.clients[c].order.sender));
    i := since + j;
  }

  lemma {:induction false} NegativeTerm<T(!new)>(ts: seq<T>, f: T -> int) returns (j: nat)
    requires SumSeq(ts, f) < 0
    ensures j < |ts| && f(ts[j]) < 0
  {
    if f(ts[0]) < 0 {
      j := 0;
    } else {
      var i := NegativeTerm(ts[1..], f);
      j := i + 1;
    }
  }

  /**
   * The race is real for every account: any two orders on one sender, each covered by its balance but not both
   * together, have a stop-free run in which the second gets past the Python check and fails in the database.
   */
  lemma RaceIsReachable(accounts: map<Key, Account>, a: Order, b: Order) returns (schedule: seq<Choice>)
    requires InRange(accounts) && a.sender == b.sender && a.sender in accounts
    requires 0 < a.amount <= accounts[a.sender].balance && 0 < b.amount <= accounts[a.sender].balance
    requires a.amount + b.amount > accounts[a.sender].balance
    ensures |Run(Start(accounts, [a, b]), schedule).clients| == 2
    ensures Run(Start(accounts, [a, b]), schedule).clients[1].phase == Over(ServerError(CheckFailed))
    ensures forall ch :: ch in schedule ==> !ch.stop
  {
    var s0 := Start(accounts, [a, b]);
    var x, y := Choice(0, false), Choice(1, false);
    RunAppend(s0, [], x);
    assert Run(s0, []) == s0;
    hide Run, InRange;
    RunAppend(s0, [] + [x], x);
    RunAppend(s0, [] + [x] + [x], y);
    RunAppend(s0, [] + [x] + [x] + [y], y);
    RunAppend(s0, [] + [x] + [x] + [y] + [y], x);
    RunAppend(s0, [] + [x] + [x] + [y] + [y] + [x], y);
    schedule := [] + [x] + [x] + [y] + [y] + [x] + [y];
  }

  /** A stop between the two commits: the sender has paid, nobody is credited, and the money is gone for good. */
  lemma StopLosesMoney(accounts: map<Key, Account>, o: Order) returns (schedule: seq<Choice>)
    requires InRange(accounts) && o.sender in accounts && 0 < o.amount <= accounts[o.sender].balance
    ensures var s := Run(Start(accounts, [o]), schedule);
            && |s.clients| == 1 && s.clients[0].phase == Over(Stopped)
            && Total(s.accounts) == Total(accounts) - o.amount
  {
    var s0 := Start(accounts, [o]);
    var x := Choice(0, false);
    RunAppend(s0, [], x);
    RunAppend(s0, [] + [x], x);
    RunAppend(s0, [] + [x] + [x], x);
    RunAppend(s0, [] + [x] + [x] + [x], Choice(0, true));
    schedule := [] + [x] + [x] + [x] + [Choice(0, true)];
    TotalWrite(accounts, o.sender, accounts[o.sender].balance - o.amount);
  }

  /** One order run alone: no sender, too little money, or the debit and then the credit. */
  lemma AloneExactly(accounts: map<Key, Account>, o: Order) returns (schedule: seq<Choice>)
    requires InRange(accounts) && o.amount > 0 && o.receiver in accounts && o.receiver != o.sender
    requires accounts[o.receiver].balance + o.amount <= MAX_CENTS
    ensures var s := Run(Start(accounts, [o]), schedule);
            |s.clients| == 1 &&
            if o.sender !in accounts then s.clients[0].phase == Over(NoSender) && s.accounts == accounts
            else if accounts[o.sender].balance < o.amount then
              s.clients[0].phase == Over(CleanReject) && s.accounts == accounts
            else
              s.clients[0].phase == Over(Ok) && s.accounts == Moved(accounts, o.sender, o.receiver, o.amount)
  {
    var s0, x := Start(accounts, [o]), Choice(0, false);
    RunAppend(s0, [], x);
    RunAppend(s0, [] + [x], x);
    RunAppend(s0, [] + [x] + [x], x);
    RunAppend(s0, [] + [x] + [x] + [x], x);
    schedule := [] + [x] + [x] + [x] + [x];
    hide Run, Step, InRange;
    FourStepsAlone(accounts, o, s0);
  }

  lemma FourStepsAlone(accounts: map<Key, Account>, o: Order, s0: State)
    requires InRange(accounts) && o.amount > 0 && o.receiver in accounts && o.receiver != o.sender
    requires accounts[o.receiver].balance + o.amount <= MAX_CENTS && s0 == Start(accounts, [o])
    ensures |Step(s0, 0, false).clients| == 1
    ensures |Step(Step(s0, 0, false), 0, false).clients| == 1
    ensures |Step(Step(Step(s0, 0, false), 0, false), 0, false).clients| == 1
    ensures var s := Step(Step(Step(Step(s0, 0, false), 0, false), 0, false), 0, false);
            |s.clients| == 1 &&
            if o.sender !in accounts then s.clients[0].phase == Over(NoSender) && s.accounts == accounts
            else if accounts[o.sender].balance < o.amount then
              s.clients[0].phase == Over(CleanReject) && s.accounts == accounts
            else
              s.clients[0].phase == Over(Ok) && s.accounts == Moved(accounts, o.sender, o.receiver, o.amount)
  {
    var s1 := Step(s0, 0, false);
    if o.sender in accounts {
      assert 0 <= accounts[o.sender].balance <= MAX_CENTS && 0 <= accounts[o.receiver].balance;
      hide InRange;
      assert s1.clients == [Client(o, Read(accounts[o.sender].balance, 0))] && s1.accounts == accounts;
      var s2 := Step(s1, 0, false);
      if accounts[o.sender].balance >= o.amount {
        MovedIsDebitCredit(accounts, o.sender, o.receiver, o.amount);
        hide Moved;
        assert s2.clients == [Client(o, Passed(accounts[o.sender].balance, 0))] && s2.accounts == accounts;
        var s3 := Step(s2, 0, false);
        assert s3.clients == [Client(o, Paid)] && s3.accounts[o.receiver] == accounts[o.receiver];
      }
    }
  }
}
