/** Which orders can lose money without anything stopping: those that can be paid for but not paid out. */
module NaiveLosses {
  import opened Sums
  import opened Bank
  import opened NaiveTransfer
  import opened NaiveRefusals

  // ----- where the money is -----

  /** Past its debit. */
  predicate Debited(cl: Client)
  {
    cl.phase.Paid? || cl.phase == Over(Ok) || cl.phase == Over(ServerError(OutOfRange))
  }

  function Out(k: Key): Client -> int
  {
    (cl: Client) => if Debited(cl) && cl.order.sender == k then cl.order.amount else 0
  }

  function In(k: Key): Client -> int
  {
    (cl: Client) => if cl.phase == Over(Ok) && cl.order.receiver == k then cl.order.amount else 0
  }

  /** The balance of k is its start less what clients have debited plus what they have credited. */
  ghost predicate Booked(s: State, k: Key, start: int)
  {
    k in s.accounts && s.accounts[k].balance == start - SumSeq(s.clients, Out(k)) + SumSeq(s.clients, In(k))
  }

  ghost predicate SendersExist(s: State)
  {
    forall c :: 0 <= c < |s.clients| && Debited(s.clients[c]) ==> s.clients[c].order.sender in s.accounts
  }

  lemma StepBooked(s: State, c: nat, k: Key, start: int)
    requires InRange(s.accounts) && c < |s.clients| && ClientOk(s, c) && s.clients[c].order.amount > 0
    requires Booked(s, k, start)
    ensures Booked(Step(s, c, false), k, start)
  {
    var s' := Step(s, c, false);
    StepShape(s, c, false);
    SumSeqUpdate(s.clients, Out(k), c, s'.clients[c]);
    SumSeqUpdate(s.clients, In(k), c, s'.clients[c]);
  }

  lemma StepSenders(s: State, c: nat)
    requires InRange(s.accounts) && c < |s.clients| && ClientOk(s, c) && SendersExist(s)
    requires s.clients[c].order.amount > 0
    ensures SendersExist(Step(s, c, false))
  {
    StepShape(s, c, false);
    StepRange(s, c, false);
  }

  lemma {:induction false} RunBooked(accounts: map<Key, Account>, orders: seq<Order>, schedule: seq<Choice>)
    requires InRange(accounts) && Positive(orders) && NoStop(schedule)
    ensures var s := Run(Start(accounts, orders), schedule);
            SendersExist(s) && forall k :: k in accounts ==> Booked(s, k, accounts[k].balance)
    decreases |schedule|
  {
    if schedule == [] {
      var s := Start(accounts, orders);
      forall k | k in accounts ensures Booked(s, k, accounts[k].balance) {
        SumSeqZero(s.clients, Out(k));
        SumSeqZero(s.clients, In(k));
      }
    } else {
      var before, ch := Run(Start(accounts, orders), schedule[..|schedule| - 1]), schedule[|schedule| - 1];
      assert ch in schedule;
      RunBooked(accounts, orders, schedule[..|schedule| - 1]);
      RunInv(accounts, orders, schedule[..|schedule| - 1]);
      if ch.client < |before.clients| {
        assert orders[ch.client] in orders && ClientOk(before, ch.client);
        hide Booked, SendersExist, Step, ClientOk;
        StepSenders(before, ch.client);
        forall k | k in accounts ensures Booked(Step(before, ch.client, false), k, accounts[k].balance) {
          StepBooked(before, ch.client, k, accounts[k].balance);
        }
      }
    }
  }

  // ----- a choice of orders -----

  datatype Pick = Pick(order: Order, taken: bool)

  function Picks(orders: seq<Order>, taken: seq<bool>): seq<Pick>
    requires |orders| == |taken|
  {
    seq(|orders|, i requires 0 <= i < |orders| => Pick(orders[i], taken[i]))
  }

  function From(k: Key): Pick -> int
  {
    (p: Pick) => if p.taken && p.order.sender == k then p.order.amount else 0
  }

  function To(k: Key): Pick -> int
  {
    (p: Pick) => if p.taken && p.order.receiver == k then p.order.amount else 0
  }

  /** Every sender exists and its balance covers all of its chosen orders together. */
  ghost predicate Affordable(accounts: map<Key, Account>, orders: seq<Order>, taken: seq<bool>)
  {
    && |taken| == |orders|
    && (forall i :: 0 <= i < |orders| && taken[i] ==> orders[i].sender in accounts)
    && (forall k :: k in accounts ==> SumSeq(Picks(orders, taken), From(k)) <= accounts[k].balance)
  }

  /** The chosen orders bring some account past the column's range, or one of them pays an account that is not there. */
  ghost predicate Undeliverable(accounts: map<Key, Account>, orders: seq<Order>, taken: seq<bool>)
    requires |taken| == |orders|
  {
    || (exists i :: 0 <= i < |orders| && taken[i] && orders[i].receiver !in accounts)
    || (exists r :: r in accounts && accounts[r].balance + SumSeq(Picks(orders, taken), To(r)) > MAX_CENTS)
  }

  // ----- a loss shows such a choice -----

  function DebitedOnes(s: State): seq<bool>
  {
    seq(|s.clients|, i requires 0 <= i < |s.clients| => Debited(s.clients[i]))
  }

  lemma DebitsAreAffordable(s: State, accounts: map<Key, Account>, orders: seq<Order>)
    requires Inv(s, accounts, orders) && SendersExist(s) && InRange(accounts) && Positive(orders)
    requires PaysNoSender(orders) && forall k :: k in accounts ==> Booked(s, k, accounts[k].balance)
    ensures Affordable(accounts, orders, DebitedOnes(s))
  {
    var taken := DebitedOnes(s);
    var picks := Picks(orders, taken);
    forall k | k in accounts ensures SumSeq(picks, From(k)) <= accounts[k].balance {
      assert Booked(s, k, accounts[k].balance);
      SumSeqAtMost(picks, From(k), s.clients, Out(k));
      if o :| o in orders && o.sender == k {
        forall cl | cl in s.clients ensures In(k)(cl) == 0 {
          var i :| 0 <= i < |s.clients| && s.clients[i] == cl;
          assert orders[i] in orders && o in orders;
        }
        SumSeqZero(s.clients, In(k));
      } else {
        forall p | p in picks ensures From(k)(p) == 0 {
          var i :| 0 <= i < |picks| && picks[i] == p;
          assert orders[i] in orders;
        }
        SumSeqZero(picks, From(k));
      }
    }
  }

  lemma FailingStep(s: State, c: nat)
    requires InRange(s.accounts) && c < |s.clients| && s.clients[c].order.amount > 0
    requires Step(s, c, false).losses != s.losses
    ensures s.clients[c].phase.Paid?
    ensures var o := s.clients[c].order;
            o.receiver !in s.accounts || s.accounts[o.receiver].balance + o.amount > MAX_CENTS
  {
  }

  /** The client whose credit is about to fail. */
  lemma FailingCredit(s: State, c: nat, accounts: map<Key, Account>, orders: seq<Order>)
    requires Inv(s, accounts, orders) && InRange(accounts) && Positive(orders) && PaysNoSender(orders)
    requires forall k :: k in accounts ==> Booked(s, k, accounts[k].balance)
    requires c < |s.clients| && Step(s, c, false).losses != s.losses
    ensures Undeliverable(accounts, orders, DebitedOnes(s))
  {
    var r, taken := s.clients[c].order.receiver, DebitedOnes(s);
    assert s.clients[c].order == orders[c] && orders[c] in orders;
    FailingStep(s, c);
    assert taken[c];
    if r in accounts {
      assert Booked(s, r, accounts[r].balance);
      TooMuch(s, c, accounts, orders);
    }
  }

  lemma TooMuch(s: State, c: nat, accounts: map<Key, Account>, orders: seq<Order>)
    requires |s.clients| == |orders| && forall d :: 0 <= d < |orders| ==> s.clients[d].order == orders[d]
    requires Positive(orders) && PaysNoSender(orders) && c < |s.clients| && s.clients[c].phase.Paid?
    requires var o := orders[c];
             && o.receiver in accounts && Booked(s, o.receiver, accounts[o.receiver].balance)
             && s.accounts[o.receiver].balance + o.amount > MAX_CENTS
    ensures var r := orders[c].receiver;
            accounts[r].balance + SumSeq(Picks(orders, DebitedOnes(s)), To(r)) > MAX_CENTS
  {
    var r := orders[c].receiver;
    var credited := s.clients[c].(phase := Over(Ok));
    SumSeqUpdate(s.clients, In(r), c, credited);
    SumSeqAtMost(s.clients[c := credited], In(r), Picks(orders, DebitedOnes(s)), To(r));
    forall cl | cl in s.clients ensures Out(r)(cl) == 0 {
      var i :| 0 <= i < |s.clients| && s.clients[i] == cl;
      assert orders[i] in orders && orders[c] in orders;
    }
    SumSeqZero(s.clients, Out(r));
  }

  lemma {:induction false} LossShowsAChoice(accounts: map<Key, Account>, orders: seq<Order>, schedule: seq<Choice>)
    returns (taken: seq<bool>)
    requires InRange(accounts) && Positive(orders) && PaysNoSender(orders) && NoStop(schedule)
    requires Run(Start(accounts, orders), schedule).losses != []
    ensures Affordable(accounts, orders, taken) && Undeliverable(accounts, orders, taken)
    decreases |schedule|
  {
    var shorter, ch := schedule[..|schedule| - 1], schedule[|schedule| - 1];
    var s := Run(Start(accounts, orders), shorter);
    assert ch in schedule && NoStop(shorter);
    if s.losses != [] {
      taken := LossShowsAChoice(accounts, orders, shorter);
    } else {
      RunInv(accounts, orders, shorter);
      RunBooked(accounts, orders, shorter);
      hide Inv, SendersExist, Booked, Affordable, Undeliverable, Step;
      taken := DebitedOnes(s);
      DebitsAreAffordable(s, accounts, orders);
      FailingCredit(s, ch.client, accounts, orders);
    }
  }

  // ----- such a choice loses -----

  /** Of the first n orders the chosen ones have gone through, and nobody else has started. */
  ghost predicate Served(s: State, orders: seq<Order>, taken: seq<bool>, n: nat)
    requires |taken| == |orders|
  {
    && |s.clients| == |orders| && n <= |orders|
    && (forall c :: 0 <= c < |orders| ==> s.clients[c].order == orders[c])
    && (forall c :: 0 <= c < |orders| ==> s.clients[c].phase == if c < n && taken[c] then Over(Ok) else Fresh)
    && (forall c :: 0 <= c < n && taken[c] ==> orders[c].receiver in s.accounts)
  }

  /** The next chosen order is still covered. */
  lemma StillCovered(s: State, accounts: map<Key, Account>, orders: seq<Order>, taken: seq<bool>, n: nat)
    requires Affordable(accounts, orders, taken) && Positive(orders) && n < |orders| && taken[n]
    requires Served(s, orders, taken, n)
    requires forall k :: k in accounts ==> Booked(s, k, accounts[k].balance)
    ensures orders[n].sender in s.accounts && s.accounts[orders[n].sender].balance >= orders[n].amount
  {
    var k := orders[n].sender;
    assert Booked(s, k, accounts[k].balance);
    var paid := s.clients[n].(phase := Paid);
    SumSeqUpdate(s.clients, Out(k), n, paid);
    SumSeqAtMost(s.clients[n := paid], Out(k), Picks(orders, taken), From(k));
    forall cl | cl in s.clients ensures In(k)(cl) >= 0 {
      var i :| 0 <= i < |s.clients| && s.clients[i] == cl;
      assert orders[i] in orders;
    }
    SumSeqNonNegative(s.clients, In(k));
  }

  /** One covered order run on its own goes through or loses its money. */
  lemma FourSteps(s: State, c: nat)
    requires InRange(s.accounts) && c < |s.clients| && s.clients[c].phase.Fresh? && s.clients[c].order.amount > 0
    requires var o := s.clients[c].order; o.sender in s.accounts && s.accounts[o.sender].balance >= o.amount
    ensures |Step(s, c, false).clients| == |s.clients|
    ensures |Step(Step(s, c, false), c, false).clients| == |s.clients|
    ensures |Step(Step(Step(s, c, false), c, false), c, false).clients| == |s.clients|
    ensures var s' := Step(Step(Step(Step(s, c, false), c, false), c, false), c, false);
            s'.losses != [] || (s'.clients == s.clients[c := s.clients[c].(phase := Over(Ok))]
                                && s.clients[c].order.receiver in s.accounts)
  {
    var o := s.clients[c].order;
    var s1 := Step(s, c, false);
    assert s1 == At(s, c, Read(s.accounts[o.sender].balance, |s.writes|));
    var s2 := Step(s1, c, false);
    assert s2.accounts == s.accounts && s2.clients == s.clients[c := s2.clients[c]] && s2.clients[c].phase.Passed?;
    var s3 := Step(s2, c, false);
    assert s3.clients == s.clients[c := s3.clients[c]] && s3.clients[c].phase.Paid?;
    assert s3.accounts.Keys == s.accounts.Keys;
    hide InRange;
  }

  lemma RunFour(start: State, done: seq<Choice>, c: nat) returns (longer: seq<Choice>)
    requires NoStop(done)
    requires var s := Run(start, done);
             && c < |s.clients| == |Step(s, c, false).clients| == |Step(Step(s, c, false), c, false).clients|
             && |Step(Step(Step(s, c, false), c, false), c, false).clients| == |s.clients|
    ensures NoStop(longer)
    ensures Run(start, longer) == Step(Step(Step(Step(Run(start, done), c, false), c, false), c, false), c, false)
  {
    var ch := Choice(c, false);
    hide Run, Step;
    RunAppend(start, done, ch);
    RunAppend(start, done + [ch], ch);
    RunAppend(start, done + [ch] + [ch], ch);
    RunAppend(start, done + [ch] + [ch] + [ch], ch);
    longer := done + [ch] + [ch] + [ch] + [ch];
  }

  lemma {:induction false} ServeChosen(accounts: map<Key, Account>, orders: seq<Order>, taken: seq<bool>, n: nat)
    returns (schedule: seq<Choice>)
    requires InRange(accounts) && Positive(orders) && Affordable(accounts, orders, taken) && n <= |orders|
    ensures NoStop(schedule)
    ensures var s := Run(Start(accounts, orders), schedule);
            s.losses != [] || Served(s, orders, taken, n)
    decreases n
  {
    if n == 0 {
      schedule := [];
    } else {
      var c, start := n - 1, Start(accounts, orders);
      schedule := ServeChosen(accounts, orders, taken, c);
      var s := Run(start, schedule);
      if s.losses == [] {
        assert |s.clients| == |orders| && s.clients[c].order == orders[c] && orders[c] in orders;
        if taken[c] {
          assert s.clients[c].phase.Fresh?;
          RunInv(accounts, orders, schedule);
          RunBooked(accounts, orders, schedule);
          StillCovered(s, accounts, orders, taken, c);
          assert InRange(s.accounts) && s.accounts.Keys == accounts.Keys;
          hide Run, Start, Step, Booked, Inv, Affordable, SendersExist, InRange, Served;
          FourSteps(s, c);
          schedule := RunFour(start, schedule, c);
          RunInv(accounts, orders, schedule);
          SameKeys(Run(start, schedule), accounts, orders);
          if Run(start, schedule).losses == [] { OneMoreServed(s, Run(start, schedule), orders, taken, n); }
        }
      }
    }
  }

  lemma OneMoreServed(s: State, s': State, orders: seq<Order>, taken: seq<bool>, n: nat)
    requires |taken| == |orders| && 0 < n <= |orders| && Served(s, orders, taken, n - 1) && taken[n - 1]
    requires s'.clients == s.clients[n - 1 := s.clients[n - 1].(phase := Over(Ok))]
    requires s'.accounts.Keys == s.accounts.Keys && orders[n - 1].receiver in s.accounts
    ensures Served(s', orders, taken, n)
  {
  }

  lemma SameKeys(s: State, accounts: map<Key, Account>, orders: seq<Order>)
    requires Inv(s, accounts, orders)
    ensures s.accounts.Keys == accounts.Keys
  {
  }

  lemma UndeliverableLoses(accounts: map<Key, Account>, orders: seq<Order>, taken: seq<bool>)
    returns (schedule: seq<Choice>)
    requires InRange(accounts) && Positive(orders) && PaysNoSender(orders)
    requires Affordable(accounts, orders, taken) && Undeliverable(accounts, orders, taken)
    ensures NoStop(schedule) && Run(Start(accounts, orders), schedule).losses != []
  {
    schedule := ServeChosen(accounts, orders, taken, |orders|);
    var s := Run(Start(accounts, orders), schedule);
    RunInv(accounts, orders, schedule);
    RunBooked(accounts, orders, schedule);
    hide Run, Start;
    if s.losses == [] && forall i :: 0 <= i < |orders| && taken[i] ==> orders[i].receiver in accounts {
      var r :| r in accounts && accounts[r].balance + SumSeq(Picks(orders, taken), To(r)) > MAX_CENTS;
      Overfull(s, accounts, orders, taken, r);
    }
  }

  /** With everything chosen paid out, the receiver's balance would be out of range. */
  lemma Overfull(s: State, accounts: map<Key, Account>, orders: seq<Order>, taken: seq<bool>, r: Key)
    requires InRange(accounts) && PaysNoSender(orders) && |taken| == |orders| && r in accounts
    requires Served(s, orders, taken, |orders|) && Booked(s, r, accounts[r].balance)
    requires accounts[r].balance + SumSeq(Picks(orders, taken), To(r)) > MAX_CENTS
    ensures !InRange(s.accounts)
  {
    var picks := Picks(orders, taken);
    SumSeqAtMost(picks, To(r), s.clients, In(r));
    if o :| o in orders && o.receiver == r {
      forall cl | cl in s.clients ensures Out(r)(cl) == 0 {
        var i :| 0 <= i < |s.clients| && s.clients[i] == cl;
        assert orders[i] in orders;
      }
      SumSeqZero(s.clients, Out(r));
    } else {
      forall p | p in picks ensures To(r)(p) == 0 {
        var i :| 0 <= i < |picks| && picks[i] == p;
        assert orders[i] in orders;
      }
      SumSeqZero(picks, To(r));
    }
  }

  /**
   * Exactly when naive transfers lose money with nothing stopping, for any number of positive orders of which none
   * pays a sender: if and only if there are orders that their senders can all cover and that cannot all be paid out,
   * because a receiver is missing or would leave the column's range.
   */
  lemma {:induction false} LossExactly(accounts: map<Key, Account>, orders: seq<Order>)
    requires InRange(accounts) && Positive(orders) && PaysNoSender(orders)
    ensures (exists schedule :: NoStop(schedule) && Run(Start(accounts, orders), schedule).losses != [])
       <==> exists taken :: Affordable(accounts, orders, taken) && Undeliverable(accounts, orders, taken)
  {
    hide Run, Start, NoStop, Undeliverable, PaysNoSender, Positive;
    if schedule :| NoStop(schedule) && Run(Start(accounts, orders), schedule).losses != [] {
      var taken := LossShowsAChoice(accounts, orders, schedule);
    }
    if taken :| Affordable(accounts, orders, taken) && Undeliverable(accounts, orders, taken) {
      var schedule := UndeliverableLoses(accounts, orders, taken);
    }
  }
}
