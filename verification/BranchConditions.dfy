/** The branch-conditions report: two LEFT JOINs fan out, distinct counts fold them back. */
module BranchConditions {
  import opened Bank
  import opened Relational

  datatype Branch = Branch(id: string, name: string)

  datatype Member = Member(id: string, branch: string)

  /** One row of branch LEFT JOIN employee LEFT JOIN account; a side without a match is NULL. */
  datatype Joined = Joined(branch: Branch, employee: Option<Member>, account: Option<Member>)

  datatype Line = Line(name: string, employees: nat, accounts: nat)

  // ----- the query -----

  function At(b: Branch): Member -> bool { (m: Member) => m.branch == b.id }

  /** The matches on one side, or a single NULL. */
  function OrNull(matches: seq<Member>): seq<Option<Member>>
  {
    if matches == [] then [None] else seq(|matches|, i requires 0 <= i < |matches| => Some(matches[i]))
  }

  function WithAccounts(b: Branch, e: Option<Member>, accounts: seq<Option<Member>>): seq<Joined>
  {
    seq(|accounts|, i requires 0 <= i < |accounts| => Joined(b, e, accounts[i]))
  }

  function WithEmployees(b: Branch, employees: seq<Option<Member>>, accounts: seq<Option<Member>>): seq<Joined>
  {
    if employees == [] then [] else WithAccounts(b, employees[0], accounts) + WithEmployees(b, employees[1..], accounts)
  }

  function Join(branches: seq<Branch>, employees: seq<Member>, accounts: seq<Member>): seq<Joined>
  {
    if branches == [] then []
    else
      WithEmployees(branches[0], OrNull(Where(employees, At(branches[0]))), OrNull(Where(accounts, At(branches[0]))))
      + Join(branches[1..], employees, accounts)
  }

  function NameOf(): Joined -> string { (j: Joined) => j.branch.name }

  /** COUNT(DISTINCT ...) skips NULLs. */
  function EmployeeIds(rows: seq<Joined>, name: string): set<string>
  {
    set j | j in rows && j.branch.name == name && j.employee.Some? :: j.employee.value.id
  }

  function AccountIds(rows: seq<Joined>, name: string): set<string>
  {
    set j | j in rows && j.branch.name == name && j.account.Some? :: j.account.value.id
  }

  function GroupLine(rows: seq<Joined>): string -> Line
  {
    (name: string) => Line(name, |EmployeeIds(rows, name)|, |AccountIds(rows, name)|)
  }

  function Enough(minEmployees: int, minAccounts: int): Line -> bool
  {
    (l: Line) => l.employees > minEmployees && l.accounts >= minAccounts
  }

  function Report(branches: seq<Branch>, employees: seq<Member>, accounts: seq<Member>,
                  minEmployees: int, minAccounts: int): seq<Line>
  {
    var rows := Join(branches, employees, accounts);
    Where(Map(Distinct(Map(rows, NameOf())), GroupLine(rows)), Enough(minEmployees, minAccounts))
  }

  // ----- what it should say -----

  /** How many of a table's rows are at the branch. */
  function Count(b: Branch, members: seq<Member>): nat
  {
    if members == [] then 0 else (if members[0].branch == b.id then 1 else 0) + Count(b, members[1..])
  }

  lemma {:induction false} CountIsWhere(b: Branch, members: seq<Member>)
    ensures Count(b, members) == |Where(members, At(b))|
  {
    if members != [] { CountIsWhere(b, members[1..]); }
  }

  /** Primary keys and the unique branch name. */
  ghost predicate Keyed(branches: seq<Branch>, employees: seq<Member>, accounts: seq<Member>)
  {
    && (forall i, j :: 0 <= i < j < |branches| ==> branches[i].name != branches[j].name)
    && (forall i, j :: 0 <= i < j < |employees| ==> employees[i].id != employees[j].id)
    && (forall i, j :: 0 <= i < j < |accounts| ==> accounts[i].id != accounts[j].id)
  }

  lemma {:induction false} RowIn(b: Branch, employees: seq<Option<Member>>, accounts: seq<Option<Member>>, j: Joined)
    ensures j in WithEmployees(b, employees, accounts) <==>
        j.branch == b && j.employee in employees && j.account in accounts
  {
    if employees != [] {
      RowIn(b, employees[1..], accounts, j);
      var first := WithAccounts(b, employees[0], accounts);
      if j.branch == b && j.employee == employees[0] && j.account in accounts {
        var i :| 0 <= i < |accounts| && accounts[i] == j.account;
        assert first[i] == j;
      }
      assert j in first ==> j.branch == b && j.employee == employees[0] && j.account in accounts;
    }
  }

  lemma {:induction false} JoinIn(branches: seq<Branch>, employees: seq<Member>, accounts: seq<Member>, j: Joined)
    ensures j in Join(branches, employees, accounts) <==>
              && j.branch in branches
              && j.employee in OrNull(Where(employees, At(j.branch)))
              && j.account in OrNull(Where(accounts, At(j.branch)))
  {
    if branches != [] {
      var b := branches[0];
      JoinIn(branches[1..], employees, accounts, j);
      RowIn(b, OrNull(Where(employees, At(b))), OrNull(Where(accounts, At(b))), j);
      assert forall c :: c in branches <==> c == b || c in branches[1..];
    }
  }

  lemma OrNullIn(matches: seq<Member>, m: Option<Member>)
    ensures m in OrNull(matches) <==> if m == None then matches == [] else m.value in matches
    ensures OrNull(matches) != [] && OrNull(matches)[0] in OrNull(matches)
  {
    if m.Some? && m.value in matches {
      var i :| 0 <= i < |matches| && matches[i] == m.value;
      assert OrNull(matches)[i] == m;
    }
  }

  function IdSet(members: seq<Member>): set<string>
  {
    set m | m in members :: m.id
  }

  lemma {:induction false} DistinctIdsCount(members: seq<Member>)
    requires forall i, j :: 0 <= i < j < |members| ==> members[i].id != members[j].id
    ensures |IdSet(members)| == |members|
  {
    if members != [] {
      DistinctIdsCount(members[1..]);
      assert members == [members[0]] + members[1..];
      assert IdSet(members) == {members[0].id} + IdSet(members[1..]);
      assert members[0].id !in IdSet(members[1..]);
    }
  }

  lemma {:induction false} StillDistinct(members: seq<Member>, b: Branch)
    requires forall i, j :: 0 <= i < j < |members| ==> members[i].id != members[j].id
    ensures var w := Where(members, At(b)); forall i, j :: 0 <= i < j < |w| ==> w[i].id != w[j].id
  {
    if members != [] {
      StillDistinct(members[1..], b);
      var w := Where(members[1..], At(b));
      forall j | 0 <= j < |w| ensures w[j].id != members[0].id { WhereIn(members[1..], At(b), w[j]); }
    }
  }

  lemma EmployeeSide(branches: seq<Branch>, employees: seq<Member>, accounts: seq<Member>, b: Branch)
    requires Keyed(branches, employees, accounts) && b in branches
    ensures EmployeeIds(Join(branches, employees, accounts), b.name) == IdSet(Where(employees, At(b)))
  {
    hide Join, Where, OrNull, At;
    var rows := Join(branches, employees, accounts);
    var es, accs := Where(employees, At(b)), Where(accounts, At(b));
    forall j | j in rows && j.branch.name == b.name && j.employee.Some? ensures j.employee.value in es {
      JoinIn(branches, employees, accounts, j);
      OrNullIn(es, j.employee);
    }
    forall e | e in es ensures e.id in EmployeeIds(rows, b.name) {
      OrNullIn(es, Some(e));
      OrNullIn(accs, None);
      var j := Joined(b, Some(e), OrNull(accs)[0]);
      JoinIn(branches, employees, accounts, j);
    }
  }

  lemma AccountSide(branches: seq<Branch>, employees: seq<Member>, accounts: seq<Member>, b: Branch)
    requires Keyed(branches, employees, accounts) && b in branches
    ensures AccountIds(Join(branches, employees, accounts), b.name) == IdSet(Where(accounts, At(b)))
  {
    hide Join, Where, OrNull, At;
    var rows := Join(branches, employees, accounts);
    var es, accs := Where(employees, At(b)), Where(accounts, At(b));
    forall j | j in rows && j.branch.name == b.name && j.account.Some? ensures j.account.value in accs {
      JoinIn(branches, employees, accounts, j);
      OrNullIn(accs, j.account);
    }
    forall a | a in accs ensures a.id in AccountIds(rows, b.name) {
      OrNullIn(accs, Some(a));
      OrNullIn(es, None);
      var j := Joined(b, OrNull(es)[0], Some(a));
      JoinIn(branches, employees, accounts, j);
    }
  }

  /** Behind the fan-out, the distinct ids on each side of a branch's group are just as many as that branch's rows. */
  lemma FanOutCounts(branches: seq<Branch>, employees: seq<Member>, accounts: seq<Member>, b: Branch)
    requires Keyed(branches, employees, accounts) && b in branches
    ensures GroupLine(Join(branches, employees, accounts))(b.name) ==
        Line(b.name, Count(b, employees), Count(b, accounts))
  {
    EmployeeSide(branches, employees, accounts, b);
    AccountSide(branches, employees, accounts, b);
    StillDistinct(employees, b);
    StillDistinct(accounts, b);
    DistinctIdsCount(Where(employees, At(b)));
    DistinctIdsCount(Where(accounts, At(b)));
    CountIsWhere(b, employees);
    CountIsWhere(b, accounts);
  }

  /** Every branch, staffed or not, forms a group. */
  lemma EveryBranchGroups(branches: seq<Branch>, employees: seq<Member>, accounts: seq<Member>, name: string)
    ensures name in Distinct(Map(Join(branches, employees, accounts), NameOf())) <==>
        exists b :: b in branches && b.name == name
  {
    var rows := Join(branches, employees, accounts);
    MapIn(rows, NameOf(), name);
    if j :| j in rows && NameOf()(j) == name {
      JoinIn(branches, employees, accounts, j);
      assert j.branch in branches && j.branch.name == name;
    }
    if b :| b in branches && b.name == name {
      var es, accs := Where(employees, At(b)), Where(accounts, At(b));
      var j := Joined(b, OrNull(es)[0], OrNull(accs)[0]);
      OrNullIn(es, j.employee);
      OrNullIn(accs, j.account);
      JoinIn(branches, employees, accounts, j);
      assert NameOf()(j) == name;
    }
  }

  /**
   * The report is right: it lists, each once, exactly the branches whose own number of employees is above and own
   * number of accounts at least the threshold, with those numbers; also when a branch has none of either.
   */
  lemma ReportIsExact(branches: seq<Branch>, employees: seq<Member>, accounts: seq<Member>,
                      minEmployees: int, minAccounts: int, l: Line)
    requires Keyed(branches, employees, accounts)
    ensures multiset(Report(branches, employees, accounts, minEmployees, minAccounts))[l] ==
              if l.employees > minEmployees && l.accounts >= minAccounts
                 && exists b :: b in branches && l == Line(b.name, Count(b, employees), Count(b, accounts))
              then 1 else 0
  {
    var rows := Join(branches, employees, accounts);
    var groups := Distinct(Map(rows, NameOf()));
    GroupedOnce(groups, GroupLine(rows), Enough(minEmployees, minAccounts), l);
    EveryBranchGroups(branches, employees, accounts, l.name);
    forall b | b in branches ensures GroupLine(rows)(b.name) == Line(b.name, Count(b, employees), Count(b, accounts)) {
      FanOutCounts(branches, employees, accounts, b);
    }
  }
}
