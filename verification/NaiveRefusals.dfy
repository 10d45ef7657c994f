/** Which orders can race: exactly when a naive debit that passed the Python check can still be refused. */
module NaiveRefusals {
  import opened Sums
  import opened Bank
  import opened NaiveTransfer

  /** Some client sending from k passed the Python check and was refused by the CHECK. */
  ghost predicate RefusedAt(s: State, k: Key)
  {
    exists c :: 0 <= c < |s.clients| && s.clients[c].order.sender == k
                && s.clients[c].phase == Over(ServerError(CheckFailed))
  }

  predicate NoStop(schedule: seq<Choice>)
  {
    forall ch :: ch in schedule ==> !ch.stop
  }

  ghost predicate Positive(orders: seq<Order>)
  {
    forall o :: o in orders ==> o.amount > 0
  }

  // ----- a floor under one account's balance -----

  /** What an order takes from k if its sender's starting balance covers it. */
  function Claim(accounts: map<Key, Account>, k: Key): Order -> int
  {
    (o: Order) => if o.sender == k && k in accounts && 0 < o.amount <= accounts[k].balance then o.amount else 0
  }

  function Sent(k: Key): Order -> int
  {
    (o: Order) => if o.sender == k && o.amount > 0 then o.amount else 0
  }

  /** The weight of an order that is past its debit, or will never debit. */
  function Gone(w: Order -> int): Client -> int
  {
    (cl: Client) => if cl.phase.Paid? || cl.phase.Over? then w(cl.order) else 0
  }

  ghost predicate NonNegative(w: Order -> int)
  {
    forall o :: w(o) >= 0
  }

  /** A client of k that is past the check has an order of positive amount and full weight. */
  ghost predicate FullWeight(s: State, k: Key, w: Order -> int)
  {
    forall c :: 0 <= c < |s.clients| && s.clients[c].order.sender == k && s.clients[c].phase.Passed? ==>
      w(s.clients[c].order) == s.clients[c].order.amount
  }

  ghost predicate Floor(s: State, k: Key, start: int, w: Order -> int)
  {
    k in s.accounts && s.accounts[k].balance >= start - SumSeq(s.clients, Gone(w))
  }

  lemma StepFloor(s: State, c: nat, stop: bool, k: Key, start: int, w: Order -> int)
    requires InRange(s.accounts) && c < |s.clients| && ClientOk(s, c) && s.clients[c].order.amount > 0
    requires NonNegative(w) && FullWeight(s, k, w) && Floor(s, k, start, w)
    ensures Floor(Step(s, c, stop), k, start, w)
  {
    var s' := Step(s, c, stop);
    StepShape(s, c, stop);
    StepRange(s, c, stop);
    SumSeqUpdate(s.clients, Gone(w), c, s'.clients[c]);
    hide InRange;
  }

  lemma {:induction false} OrdersOfClients(s: State, orders: seq<Order>, w: Order -> int, c: nat)
    requires |s.clients| == |orders| && forall d :: 0 <= d < |orders| ==> s.clients[d].order == orders[d]
    requires NonNegative(w) && c < |s.clients| && !s.clients[c].phase.Paid? && !s.clients[c].phase.Over?
    ensures SumSeq(s.clients, Gone(w)) + w(orders[c]) <= SumSeq(orders, w)
  {
    var over := s.clients[c].(phase := Paid);
    SumSeqUpdate(s.clients, Gone(w), c, over);
    SumSeqAtMost(s.clients[c := over], Gone(w), orders, w);
  }

  /** A refusal now means the weights exceed the start. */
  lemma {:induction false} RefusalIsHeavy(s: State, c: nat, stop: bool, k: Key, start: int,
                                          w: Order -> int, orders: seq<Order>)
    requires InRange(s.accounts) && c < |s.clients| && ClientOk(s, c) && s.clients[c].order.amount > 0
    requires |s.clients| == |orders| && forall d :: 0 <= d < |orders| ==> s.clients[d].order == orders[d]
    requires NonNegative(w) && FullWeight(s, k, w) && Floor(s, k, start, w)
    requires !RefusedAt(s, k) && RefusedAt(Step(s, c, stop), k)
    ensures SumSeq(orders, w) > start
  {
    var s' := Step(s, c, stop);
    StepShape(s, c, stop);
    var d :| 0 <= d < |s'.clients| && s'.clients[d].order.sender == k
             && s'.clients[d].phase == Over(ServerError(CheckFailed));
    assert d == c;
    assert s.clients[c].phase.Passed?;
    OrdersOfClients(s, orders, w, c);
  }

  // ----- senders that nobody pays -----

  /** No order pays into k. */
  ghost predicate NeverPaid(orders: seq<Order>, k: Key)
  {
    forall o :: o in orders ==> o.receiver != k
  }

  /** The balance of k, and every reading of it that is still in use, are at most the start. */
  ghost predicate Capped(s: State, k: Key, start: int)
  {
    && k in s.accounts && s.accounts[k].balance <= start
    && (forall c :: 0 <= c < |s.clients| && s.clients[c].order.sender == k ==>
          match s.clients[c].phase
          case Read(seen, _) => seen <= start
          case Passed(seen, _) => s.clients[c].order.amount <= seen <= start
          case _ => true)
  }

  lemma StepCapped(s: State, c: nat, stop: bool, k: Key, start: int)
    requires InRange(s.accounts) && c < |s.clients| && Capped(s, k, start)
    requires s.clients[c].order.amount > 0 && s.clients[c].order.receiver != k
    ensures Capped(Step(s, c, stop), k, start)
  {
    StepShape(s, c, stop);
    hide InRange;
  }

  // ----- no run refuses -----

  /** Orders of k get full weight in every state: because all are weighed so, or because of the cap. */
  ghost predicate Weighs(accounts: map<Key, Account>, orders: seq<Order>, k: Key, w: Order -> int)
  {
    && k in accounts && NonNegative(w) && Positive(orders)
    && (w == Sent(k) || (w == Claim(accounts, k) && NeverPaid(orders, k)))
  }

  ghost predicate Calm(s: State, accounts: map<Key, Account>, orders: seq<Order>, k: Key, w: Order -> int)
    requires k in accounts
  {
    && Floor(s, k, accounts[k].balance, w)
    && (NeverPaid(orders, k) ==> Capped(s, k, accounts[k].balance))
    && (RefusedAt(s, k) ==> SumSeq(orders, w) > accounts[k].balance)
  }

  lemma CalmWeight(s: State, accounts: map<Key, Account>, orders: seq<Order>, k: Key, w: Order -> int)
    requires Weighs(accounts, orders, k, w) && Calm(s, accounts, orders, k, w) && Inv(s, accounts, orders)
    ensures FullWeight(s, k, w)
  {
    forall c | 0 <= c < |s.clients| && s.clients[c].order.sender == k && s.clients[c].phase.Passed?
      ensures w(s.clients[c].order) == s.clients[c].order.amount
    {
      assert orders[c] in orders;
    }
  }

  lemma StepCalm(s: State, c: nat, stop: bool, accounts: map<Key, Account>, orders: seq<Order>, k: Key,
                 w: Order -> int)
    requires Weighs(accounts, orders, k, w) && Inv(s, accounts, orders) && Calm(s, accounts, orders, k, w)
    requires c < |s.clients|
    ensures Calm(Step(s, c, stop), accounts, orders, k, w)
  {
    CalmWeight(s, accounts, orders, k, w);
    assert orders[c] in orders && ClientOk(s, c);
    hide FullWeight, Floor, Capped, Step, ClientOk;
    StepFloor(s, c, stop, k, accounts[k].balance, w);
    if NeverPaid(orders, k) { StepCapped(s, c, stop, k, accounts[k].balance); }
    if !RefusedAt(s, k) && RefusedAt(Step(s, c, stop), k) {
      RefusalIsHeavy(s, c, stop, k, accounts[k].balance, w, orders);
    }
  }

  lemma {:induction false} RunCalm(accounts: map<Key, Account>, orders: seq<Order>, schedule: seq<Choice>, k: Key,
                                   w: Order -> int)
    requires InRange(accounts) && Weighs(accounts, orders, k, w)
    ensures Calm(Run(Start(accounts, orders), schedule), accounts, orders, k, w)
    decreases |schedule|
  {
    if schedule == [] {
      SumSeqZero(Start(accounts, orders).clients, Gone(w));
    } else {
      var before, ch := Run(Start(accounts, orders), schedule[..|schedule| - 1]), schedule[|schedule| - 1];
      RunCalm(accounts, orders, schedule[..|schedule| - 1], k, w);
      RunInv(accounts, orders, schedule[..|schedule| - 1]);
      hide Inv, Calm, Step, Weighs;
      if ch.client < |before.clients| { StepCalm(before, ch.client, ch.stop, accounts, orders, k, w); }
    }
  }

  /**
   * Safe whatever the receivers are: if all that is sent from an account sums to at most its balance, no run, with or
   * without stops, ever has a debit of it refused.
   */
  lemma {:induction false} CoveredSendersAreSafe(accounts: map<Key, Account>, orders: seq<Order>,
                                                 schedule: seq<Choice>, k: Key)
    requires InRange(accounts) && Positive(orders)
    requires k in accounts && SumSeq(orders, Sent(k)) <= accounts[k].balance
    ensures !RefusedAt(Run(Start(accounts, orders), schedule), k)
  {
    RunCalm(accounts, orders, schedule, k, Sent(k));
  }

  // ----- a run that refuses -----

  predicate Covered(accounts: map<Key, Account>, k: Key, o: Order)
    requires k in accounts
  {
    o.sender == k && 0 < o.amount <= accounts[k].balance
  }

  /** The covered orders of k among the first m have debited, those of the first n have passed the check. */
  ghost predicate Halfway(s: State, accounts: map<Key, Account>, orders: seq<Order>, k: Key, m: nat, n: nat)
    requires k in accounts
  {
    && |s.clients| == |orders| && m <= n <= |orders| && k in s.accounts
    && s.accounts[k].balance == accounts[k].balance - SumSeq(orders[..m], Claim(accounts, k))
    && (forall c :: 0 <= c < |orders| ==> s.clients[c].order == orders[c])
    && (forall c :: m <= c < n && Covered(accounts, k, orders[c]) ==> s.clients[c].phase.Passed?)
    && (forall c :: n <= c < |orders| ==> s.clients[c].phase.Fresh?)
  }

  lemma {:induction false} AllPass(accounts: map<Key, Account>, orders: seq<Order>, k: Key, n: nat)
    returns (schedule: seq<Choice>)
    requires k in accounts && n <= |orders|
    ensures NoStop(schedule) && Halfway(Run(Start(accounts, orders), schedule), accounts, orders, k, 0, n)
    decreases n
  {
    if n == 0 {
      schedule := [];
      NobodyYet(accounts, orders, k);
    } else {
      var start, c := Start(accounts, orders), n - 1;
      schedule := AllPass(accounts, orders, k, c);
      hide Run, Start, Halfway, Step;
      OneMorePasses(Run(start, schedule), accounts, orders, k, n);
      if Covered(accounts, k, orders[c]) {
        RunAppend(start, schedule, Choice(c, false));
        RunAppend(start, schedule + [Choice(c, false)], Choice(c, false));
        schedule := schedule + [Choice(c, false)] + [Choice(c, false)];
      }
    }
  }

  lemma NobodyYet(accounts: map<Key, Account>, orders: seq<Order>, k: Key)
    requires k in accounts
    ensures Halfway(Run(Start(accounts, orders), []), accounts, orders, k, 0, 0)
  {
    assert SumSeq(orders[..0], Claim(accounts, k)) == 0;
  }

  lemma OneMorePasses(s: State, accounts: map<Key, Account>, orders: seq<Order>, k: Key, n: nat)
    requires k in accounts && 0 < n <= |orders| && Halfway(s, accounts, orders, k, 0, n - 1)
    ensures |s.clients| == |Step(s, n - 1, false).clients| == |orders|
    ensures var s' := if Covered(accounts, k, orders[n - 1]) then Step(Step(s, n - 1, false), n - 1, false) else s;
            Halfway(s', accounts, orders, k, 0, n)
  {
    assert SumSeq(orders[..0], Claim(accounts, k)) == 0;
    var c, t := n - 1, Step(s, n - 1, false);
    if Covered(accounts, k, orders[c]) {
      assert t.clients == s.clients[c := t.clients[c]] && t.clients[c].phase.Read?;
      var s' := Step(t, c, false);
      assert s'.clients == t.clients[c := s'.clients[c]] && s'.clients[c].phase.Passed?;
    }
  }

  /** Covered orders debit in turn until one is refused. */
  lemma {:induction false} DebitInTurn(accounts: map<Key, Account>, orders: seq<Order>, k: Key, passed: seq<Choice>,
                                       m: nat) returns (schedule: seq<Choice>)
    requires InRange(accounts) && k in accounts && m <= |orders| && NoStop(passed)
    requires Halfway(Run(Start(accounts, orders), passed), accounts, orders, k, 0, |orders|)
    ensures NoStop(schedule)
    ensures var s := Run(Start(accounts, orders), schedule);
            RefusedAt(s, k) || Halfway(s, accounts, orders, k, m, |orders|)
    decreases m
  {
    if m == 0 {
      schedule := passed;
    } else {
      var start, c := Start(accounts, orders), m - 1;
      schedule := DebitInTurn(accounts, orders, k, passed, c);
      var s := Run(start, schedule);
      if !RefusedAt(s, k) {
        RunInv(accounts, orders, schedule);
        hide RefusedAt, Halfway;
        OneMoreDebit(s, accounts, orders, k, m);
        if Covered(accounts, k, orders[c]) {
          RunAppend(start, schedule, Choice(c, false));
          schedule := schedule + [Choice(c, false)];
        }
      }
    }
  }

  lemma OneMoreDebit(s: State, accounts: map<Key, Account>, orders: seq<Order>, k: Key, m: nat)
    requires k in accounts && InRange(s.accounts) && 0 < m <= |orders| == |s.clients|
    requires Halfway(s, accounts, orders, k, m - 1, |orders|) && accounts[k].balance <= MAX_CENTS
    ensures var s' := if Covered(accounts, k, orders[m - 1]) then Step(s, m - 1, false) else s;
            RefusedAt(s', k) || Halfway(s', accounts, orders, k, m, |orders|)
  {
    var c := m - 1;
    assert orders[..m] == orders[..c] + [orders[c]];
    SumSeqAppend(orders[..c], [orders[c]], Claim(accounts, k));
    assert SumSeq([orders[c]], Claim(accounts, k)) == Claim(accounts, k)(orders[c]);
    if Covered(accounts, k, orders[c]) {
      var s' := Step(s, c, false);
      StepShape(s, c, false);
      if s.accounts[k].balance < orders[c].amount {
        assert s'.clients[c].phase == Over(ServerError(CheckFailed));
      }
    }
    hide InRange;
  }

  /**
   * The race is real for every account whose covered orders together exceed its balance, whoever they pay: some run
   * without a stop gets one of them past the Python check and refused in the database.
   */
  lemma {:induction false} OverclaimedSenderIsRefused(accounts: map<Key, Account>, orders: seq<Order>, k: Key)
    returns (schedule: seq<Choice>)
    requires InRange(accounts) && k in accounts && SumSeq(orders, Claim(accounts, k)) > accounts[k].balance
    ensures NoStop(schedule) && RefusedAt(Run(Start(accounts, orders), schedule), k)
  {
    var passed := AllPass(accounts, orders, k, |orders|);
    schedule := DebitInTurn(accounts, orders, k, passed, |orders|);
    assert orders[..|orders|] == orders;
    RunInv(accounts, orders, schedule);
    hide Run;
  }

  /**
   * Exactly when a debit can be refused, for any account that no order pays into and any number of orders: if and only
   * if the orders that its balance covers one at a time sum to more than it. Stops make no difference.
   */
  lemma {:induction false} RefusalExactlyAt(accounts: map<Key, Account>, orders: seq<Order>, k: Key)
    requires InRange(accounts) && Positive(orders) && k in accounts && NeverPaid(orders, k)
    ensures (exists schedule :: RefusedAt(Run(Start(accounts, orders), schedule), k))
       <==> SumSeq(orders, Claim(accounts, k)) > accounts[k].balance
    ensures (exists schedule :: NoStop(schedule) && RefusedAt(Run(Start(accounts, orders), schedule), k))
       <==> SumSeq(orders, Claim(accounts, k)) > accounts[k].balance
  {
    hide Run, Start, NoStop, RefusedAt;
    if SumSeq(orders, Claim(accounts, k)) > accounts[k].balance {
      var schedule := OverclaimedSenderIsRefused(accounts, orders, k);
    }
    if schedule :| RefusedAt(Run(Start(accounts, orders), schedule), k) {
      RunCalm(accounts, orders, schedule, k, Claim(accounts, k));
    }
  }

  /** No order pays an account that any order is sent from. */
  ghost predicate PaysNoSender(orders: seq<Order>)
  {
    forall o, p :: o in orders && p in orders ==> o.receiver != p.sender
  }

  ghost predicate Refused(s: State)
  {
    exists k :: RefusedAt(s, k)
  }

  lemma RefusedSenderExists(accounts: map<Key, Account>, orders: seq<Order>, schedule: seq<Choice>, k: Key)
    requires InRange(accounts) && RefusedAt(Run(Start(accounts, orders), schedule), k)
    ensures k in accounts && exists o :: o in orders && o.sender == k
  {
    var s := Run(Start(accounts, orders), schedule);
    RunInv(accounts, orders, schedule);
    SenderExists(accounts, orders, schedule);
    var c :| 0 <= c < |s.clients| && s.clients[c].order.sender == k
             && s.clients[c].phase == Over(ServerError(CheckFailed));
    assert orders[c] in orders;
  }

  lemma {:induction false} SenderExists(accounts: map<Key, Account>, orders: seq<Order>, schedule: seq<Choice>)
    requires InRange(accounts)
    ensures var s := Run(Start(accounts, orders), schedule);
            forall c :: 0 <= c < |s.clients| && s.clients[c].phase == Over(ServerError(CheckFailed)) ==>
              s.clients[c].order.sender in accounts
    decreases |schedule|
  {
    if schedule != [] {
      var before, ch := Run(Start(accounts, orders), schedule[..|schedule| - 1]), schedule[|schedule| - 1];
      SenderExists(accounts, orders, schedule[..|schedule| - 1]);
      RunInv(accounts, orders, schedule[..|schedule| - 1]);
      if ch.client < |before.clients| {
        StepShape(before, ch.client, ch.stop);
        assert ClientOk(before, ch.client);
      }
    }
  }

  /**
   * Exactly when naive transfers can race, for any number of positive orders of which none pays a sender: some run has
   * a client past the Python check refused by the CHECK if and only if some account's covered orders sum to more than
   * its balance.
   */
  lemma {:induction false} RefusalExactly(accounts: map<Key, Account>, orders: seq<Order>)
    requires InRange(accounts) && Positive(orders) && PaysNoSender(orders)
    ensures (exists schedule :: NoStop(schedule) && Refused(Run(Start(accounts, orders), schedule)))
       <==> exists k :: k in accounts && SumSeq(orders, Claim(accounts, k)) > accounts[k].balance
    ensures (exists schedule :: Refused(Run(Start(accounts, orders), schedule)))
       <==> exists k :: k in accounts && SumSeq(orders, Claim(accounts, k)) > accounts[k].balance
  {
    hide Run, Start, NoStop, RefusedAt;
    if k :| k in accounts && SumSeq(orders, Claim(accounts, k)) > accounts[k].balance {
      var schedule := OverclaimedSenderIsRefused(accounts, orders, k);
    }
    if schedule, k :| RefusedAt(Run(Start(accounts, orders), schedule), k) {
      RefusedSenderExists(accounts, orders, schedule, k);
      RunCalm(accounts, orders, schedule, k, Claim(accounts, k));
      assert SumSeq(orders, Claim(accounts, k)) > accounts[k].balance;
    }
  }
}
