/** The high-value report: customers whose transactions, in or out, sum above a threshold. */
module HighValue {
  import opened Sums
  import opened Bank
  import opened Relational

  datatype Customer = Customer(id: string, first: string, last: string)

  datatype AccountRow = AccountRow(id: Key, customer: string)

  datatype Joined = Joined(customer: Customer, account: AccountRow, txn: Row)

  datatype Line = Line(customer: Customer, total: int)

  // ----- the query, as the database evaluates it -----

  predicate Touches(a: AccountRow, r: Row)
  {
    a.id == r.source || Some(a.id) == r.target
  }

  function JoinRows(c: Customer, a: AccountRow, ts: seq<Row>): seq<Joined>
  {
    if ts == [] then [] else (if Touches(a, ts[0]) then [Joined(c, a, ts[0])] else []) + JoinRows(c, a, ts[1..])
  }

  function JoinAccounts(c: Customer, accounts: seq<AccountRow>, ts: seq<Row>): seq<Joined>
  {
    if accounts == [] then []
    else
      (if accounts[0].customer == c.id then JoinRows(c, accounts[0], ts) else [])
      + JoinAccounts(c, accounts[1..], ts)
  }

  function Join(customers: seq<Customer>, accounts: seq<AccountRow>, ts: seq<Row>): seq<Joined>
  {
    if customers == [] then [] else JoinAccounts(customers[0], accounts, ts) + Join(customers[1..], accounts, ts)
  }

  function Amount(): Joined -> int { (j: Joined) => j.txn.amount }

  function CustomerOf(): Joined -> Customer { (j: Joined) => j.customer }

  function IsFor(c: Customer): Joined -> bool { (j: Joined) => j.customer == c }

  ghost function GroupTotal(rows: seq<Joined>, c: Customer): int
  {
    SumSeq(Where(rows, IsFor(c)), Amount())
  }

  ghost function GroupLine(rows: seq<Joined>): Customer -> Line
  {
    (c: Customer) => Line(c, GroupTotal(rows, c))
  }

  function Above(minimum: int): Line -> bool { (l: Line) => l.total > minimum }

  function LineTotal(): Line -> int { (l: Line) => l.total }

  ghost function Report(customers: seq<Customer>, accounts: seq<AccountRow>, ts: seq<Row>, minimum: int): seq<Line>
  {
    var rows := Join(customers, accounts, ts);
    OrderByDesc(Where(Map(Distinct(Map(rows, CustomerOf())), GroupLine(rows)), Above(minimum)), LineTotal())
  }

  // ----- what each customer's figure should be -----

  ghost predicate OwnedBy(c: Customer, accounts: seq<AccountRow>, k: Key)
  {
    AccountRow(k, c.id) in accounts
  }

  /** How many of the row's distinct, non-null ends are accounts of the customer. */
  ghost function Share(c: Customer, accounts: seq<AccountRow>, r: Row): nat
  {
    (if OwnedBy(c, accounts, r.source) then 1 else 0) +
    (if r.target.Some? && r.target.value != r.source && OwnedBy(c, accounts, r.target.value) then 1 else 0)
  }

  ghost function DirectTotal(c: Customer, accounts: seq<AccountRow>, ts: seq<Row>): int
  {
    if ts == [] then 0 else ts[0].amount * Share(c, accounts, ts[0]) + DirectTotal(c, accounts, ts[1..])
  }

  /** The keys the schema declares: account ids are unique, customer ids are unique. */
  ghost predicate Keyed(customers: seq<Customer>, accounts: seq<AccountRow>)
  {
    && (forall i, j :: 0 <= i < j < |accounts| ==> accounts[i].id != accounts[j].id)
    && (forall i, j :: 0 <= i < j < |customers| ==> customers[i].id != customers[j].id)
  }

  // ----- the fan-out join adds up -----

  lemma {:induction false} RowsAddUp(c: Customer, a: AccountRow, rest: seq<AccountRow>, ts: seq<Row>)
    requires a.customer == c.id && forall b :: b in rest ==> b.id != a.id
    ensures SumSeq(JoinRows(c, a, ts), Amount()) + DirectTotal(c, rest, ts) == DirectTotal(c, [a] + rest, ts)
  {
    if ts != [] {
      RowsAddUp(c, a, rest, ts[1..]);
      var r := ts[0];
      SumSeqAppend(if Touches(a, r) then [Joined(c, a, r)] else [], JoinRows(c, a, ts[1..]), Amount());
      assert Share(c, [a] + rest, r) == Share(c, rest, r) + (if Touches(a, r) then 1 else 0);
      assert r.amount * Share(c, [a] + rest, r) ==
          r.amount * Share(c, rest, r) + (if Touches(a, r) then r.amount else 0);
    }
  }

  lemma {:induction false} OthersDoNotCount(c: Customer, a: AccountRow, rest: seq<AccountRow>, ts: seq<Row>)
    requires a.customer != c.id
    ensures DirectTotal(c, [a] + rest, ts) == DirectTotal(c, rest, ts)
  {
    if ts != [] {
      OthersDoNotCount(c, a, rest, ts[1..]);
    }
  }

  lemma {:induction false} NoAccountsNoTotal(c: Customer, ts: seq<Row>)
    ensures DirectTotal(c, [], ts) == 0
  {
    if ts != [] { NoAccountsNoTotal(c, ts[1..]); }
  }

  lemma {:induction false} AccountsAddUp(c: Customer, accounts: seq<AccountRow>, ts: seq<Row>)
    requires forall i, j :: 0 <= i < j < |accounts| ==> accounts[i].id != accounts[j].id
    ensures SumSeq(JoinAccounts(c, accounts, ts), Amount()) == DirectTotal(c, accounts, ts)
  {
    if accounts == [] {
      NoAccountsNoTotal(c, ts);
    } else {
      var a, rest := accounts[0], accounts[1..];
      assert accounts == [a] + rest;
      AccountsAddUp(c, rest, ts);
      SumSeqAppend(if a.customer == c.id then JoinRows(c, a, ts) else [], JoinAccounts(c, rest, ts), Amount());
      if a.customer == c.id { RowsAddUp(c, a, rest, ts); } else { OthersDoNotCount(c, a, rest, ts); }
    }
  }

  lemma {:induction false} JoinedFrom(c: Customer, accounts: seq<AccountRow>, ts: seq<Row>, a: AccountRow)
    ensures forall j :: j in JoinRows(c, a, ts) ==>
        j.customer == c && j.account == a && j.txn in ts && Touches(a, j.txn)
    ensures forall j :: j in JoinAccounts(c, accounts, ts) ==>
              && j.customer == c && j.account in accounts && j.account.customer == c.id
              && j.txn in ts && Touches(j.account, j.txn)
    decreases |accounts|, |ts|
  {
    if ts != [] { JoinedFrom(c, [], ts[1..], a); }
    if accounts != [] {
      JoinedFrom(c, [], ts, accounts[0]);
      JoinedFrom(c, accounts[1..], ts, a);
    }
  }

  lemma {:induction false} GroupIsTheCustomers(customers: seq<Customer>, accounts: seq<AccountRow>, ts: seq<Row>,
                                               c: Customer)
    requires Keyed(customers, accounts)
    ensures Where(Join(customers, accounts, ts), IsFor(c)) ==
        if c in customers then JoinAccounts(c, accounts, ts) else []
  {
    if customers != [] {
      var d, rest := customers[0], customers[1..];
      GroupIsTheCustomers(rest, accounts, ts, c);
      WhereAppend(JoinAccounts(d, accounts, ts), Join(rest, accounts, ts), IsFor(c));
      JoinedFrom(d, accounts, ts, AccountRow("", ""));
      if d == c {
        WhereAll(JoinAccounts(d, accounts, ts), IsFor(c));
        assert c !in rest;
      } else {
        WhereNone(JoinAccounts(d, accounts, ts), IsFor(c));
      }
    }
  }

  /** The total the query computes for a customer is the sum over transactions of amount times the customer's share. */
  lemma GroupTotalIsDirect(customers: seq<Customer>, accounts: seq<AccountRow>, ts: seq<Row>, c: Customer)
    requires Keyed(customers, accounts) && c in customers
    ensures GroupTotal(Join(customers, accounts, ts), c) == DirectTotal(c, accounts, ts)
  {
    GroupIsTheCustomers(customers, accounts, ts, c);
    AccountsAddUp(c, accounts, ts);
  }

  /** A customer forms a group at all exactly when some transaction touches an account of theirs. */
  ghost predicate Active(c: Customer, accounts: seq<AccountRow>, ts: seq<Row>)
  {
    exists r :: r in ts && Share(c, accounts, r) > 0
  }

  lemma {:induction false} RowJoins(c: Customer, accounts: seq<AccountRow>, ts: seq<Row>, a: AccountRow, r: Row)
    requires r in ts && Touches(a, r)
    ensures Joined(c, a, r) in JoinRows(c, a, ts)
    ensures a in accounts && a.customer == c.id ==> Joined(c, a, r) in JoinAccounts(c, accounts, ts)
    decreases |accounts|, |ts|
  {
    if ts[0] != r { RowJoins(c, [], ts[1..], a, r); }
    if a in accounts && accounts[0] != a { RowJoins(c, accounts[1..], ts, a, r); }
  }

  lemma GroupExists(customers: seq<Customer>, accounts: seq<AccountRow>, ts: seq<Row>, c: Customer)
    requires Keyed(customers, accounts)
    ensures c in Distinct(Map(Join(customers, accounts, ts), CustomerOf())) <==>
        c in customers && Active(c, accounts, ts)
  {
    var rows := Join(customers, accounts, ts);
    var mine := Where(rows, IsFor(c));
    MapIn(rows, CustomerOf(), c);
    GroupIsTheCustomers(customers, accounts, ts, c);
    JoinedFrom(c, accounts, ts, AccountRow("", ""));
    if j :| j in rows && CustomerOf()(j) == c {
      WhereIn(rows, IsFor(c), j);
      assert Share(c, accounts, j.txn) > 0;
    }
    if c in customers && Active(c, accounts, ts) {
      var r :| r in ts && Share(c, accounts, r) > 0;
      var k := if OwnedBy(c, accounts, r.source) then r.source else r.target.value;
      RowJoins(c, accounts, ts, AccountRow(k, c.id), r);
      WhereIn(rows, IsFor(c), Joined(c, AccountRow(k, c.id), r));
    }
  }

  /**
   * The report is right: it lists, highest total first and each once, exactly the customers with at least one
   * transaction whose direct total is above the threshold, with that total.
   */
  lemma ReportIsExact(customers: seq<Customer>, accounts: seq<AccountRow>, ts: seq<Row>, minimum: int, l: Line)
    requires Keyed(customers, accounts)
    ensures var report := Report(customers, accounts, ts, minimum);
            && (forall i, j :: 0 <= i < j < |report| ==> report[i].total >= report[j].total)
            && multiset(report)[l] ==
                 if l.customer in customers && Active(l.customer, accounts, ts)
                    && l.total == DirectTotal(l.customer, accounts, ts) && l.total > minimum
                 then 1 else 0
  {
    var rows := Join(customers, accounts, ts);
    var groups := Distinct(Map(rows, CustomerOf()));
    OrderedSame(Where(Map(groups, GroupLine(rows)), Above(minimum)), LineTotal());
    GroupedOnce(groups, GroupLine(rows), Above(minimum), l);
    GroupExists(customers, accounts, ts, l.customer);
    if l.customer in customers { GroupTotalIsDirect(customers, accounts, ts, l.customer); }
  }

  // ----- all customers together -----

  ghost function AllTotals(customers: seq<Customer>, accounts: seq<AccountRow>, ts: seq<Row>): int
  {
    if customers == [] then 0
    else DirectTotal(customers[0], accounts, ts) + AllTotals(customers[1..], accounts, ts)
  }

  /** Every transaction's amount once for each of its distinct, non-null ends. */
  function TwoSided(): Row -> int
  {
    (r: Row) => if r.target.Some? && r.target.value != r.source then 2 * r.amount else r.amount
  }

  ghost function Shares(customers: seq<Customer>, accounts: seq<AccountRow>, r: Row): int
  {
    if customers == [] then 0 else Share(customers[0], accounts, r) + Shares(customers[1..], accounts, r)
  }

  /** Foreign keys: both ends are accounts, and every account belongs to a listed customer. */
  ghost predicate Linked(customers: seq<Customer>, accounts: seq<AccountRow>, ts: seq<Row>)
  {
    && (forall r :: r in ts ==> HasOwner(customers, accounts, r.source))
    && (forall r :: r in ts && r.target.Some? ==> HasOwner(customers, accounts, r.target.value))
  }

  ghost predicate HasOwner(customers: seq<Customer>, accounts: seq<AccountRow>, k: Key)
  {
    exists c :: c in customers && OwnedBy(c, accounts, k)
  }

  ghost function Owners(customers: seq<Customer>, accounts: seq<AccountRow>, k: Key): int
  {
    if customers == [] then 0
    else (if OwnedBy(customers[0], accounts, k) then 1 else 0) + Owners(customers[1..], accounts, k)
  }

  lemma SameOwner(accounts: seq<AccountRow>, k: Key, c: Customer, d: Customer)
    requires forall i, j :: 0 <= i < j < |accounts| ==> accounts[i].id != accounts[j].id
    ensures OwnedBy(c, accounts, k) && OwnedBy(d, accounts, k) ==> c.id == d.id
  {
  }

  lemma {:induction false} OneOwner(customers: seq<Customer>, accounts: seq<AccountRow>, k: Key)
    requires Keyed(customers, accounts)
    ensures Owners(customers, accounts, k) == if HasOwner(customers, accounts, k) then 1 else 0
  {
    if customers != [] {
      OneOwner(customers[1..], accounts, k);
      assert HasOwner(customers, accounts, k) ==>
          OwnedBy(customers[0], accounts, k) || HasOwner(customers[1..], accounts, k);
      if HasOwner(customers[1..], accounts, k) {
        var c :| c in customers[1..] && OwnedBy(c, accounts, k);
        assert c in customers && c.id != customers[0].id;
        SameOwner(accounts, k, c, customers[0]);
      }
    }
  }

  lemma {:induction false} SharesAreOwners(customers: seq<Customer>, accounts: seq<AccountRow>, r: Row)
    ensures Shares(customers, accounts, r) == Owners(customers, accounts, r.source) +
              (if r.target.Some? && r.target.value != r.source then Owners(customers, accounts, r.target.value) else 0)
  {
    if customers != [] { SharesAreOwners(customers[1..], accounts, r); }
  }

  lemma Distribute(a: int, x: int, y: int)
    ensures a * (x + y) == a * x + a * y
  {
  }

  lemma {:induction false} TotalsByRow(customers: seq<Customer>, accounts: seq<AccountRow>, r: Row, ts: seq<Row>)
    ensures AllTotals(customers, accounts, [r] + ts) ==
        r.amount * Shares(customers, accounts, r) + AllTotals(customers, accounts, ts)
  {
    if customers != [] {
      TotalsByRow(customers[1..], accounts, r, ts);
      assert ([r] + ts)[1..] == ts;
      hide OwnedBy, Share;
      var x, y := Share(customers[0], accounts, r), Shares(customers[1..], accounts, r);
      Distribute(r.amount, x, y);
    }
  }

  lemma {:induction false} TotalsOfNothing(customers: seq<Customer>, accounts: seq<AccountRow>)
    ensures AllTotals(customers, accounts, []) == 0
  {
    if customers != [] { TotalsOfNothing(customers[1..], accounts); }
  }

  /** Summed over all customers, the totals count each two-ended transaction twice and each one-ended one once. */
  lemma {:induction false} TotalsAddUp(customers: seq<Customer>, accounts: seq<AccountRow>, ts: seq<Row>)
    requires Keyed(customers, accounts) && Linked(customers, accounts, ts)
    ensures AllTotals(customers, accounts, ts) == SumSeq(ts, TwoSided())
  {
    if ts == [] {
      TotalsOfNothing(customers, accounts);
    } else {
      var r := ts[0];
      assert ts == [r] + ts[1..];
      TotalsAddUp(customers, accounts, ts[1..]);
      TotalsByRow(customers, accounts, r, ts[1..]);
      SharesAreOwners(customers, accounts, r);
      OneOwner(customers, accounts, r.source);
      if r.target.Some? { OneOwner(customers, accounts, r.target.value); }
    }
  }
}
