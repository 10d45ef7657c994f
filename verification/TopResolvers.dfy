/** The top-resolvers report: counts per employee, then everyone at the maximum. */
module TopResolvers {
  import opened Sums
  import opened Relational

  datatype Employee = Employee(id: string, first: string, last: string)

  datatype Status = Open | InProgress | Resolved

  datatype Ticket = Ticket(id: string, employee: string, status: Status)

  datatype Joined = Joined(employee: Employee, ticket: Ticket)

  datatype Line = Line(employee: Employee, resolved: int)

  // ----- the query -----

  function ResolvedBy(e: Employee): Ticket -> bool
  {
    (t: Ticket) => t.employee == e.id && t.status == Resolved
  }

  function Pair(e: Employee): Ticket -> Joined { (t: Ticket) => Joined(e, t) }

  function Join(employees: seq<Employee>, tickets: seq<Ticket>): seq<Joined>
  {
    if employees == [] then []
    else Map(Where(tickets, ResolvedBy(employees[0])), Pair(employees[0])) + Join(employees[1..], tickets)
  }

  function EmployeeOf(): Joined -> Employee { (j: Joined) => j.employee }

  function IsOf(e: Employee): Joined -> bool { (j: Joined) => j.employee == e }

  function GroupLine(rows: seq<Joined>): Employee -> Line
  {
    (e: Employee) => Line(e, |Where(rows, IsOf(e))|)
  }

  /** The common table expression: one line per employee with a resolved ticket. */
  function Counts(employees: seq<Employee>, tickets: seq<Ticket>): seq<Line>
  {
    var rows := Join(employees, tickets);
    Map(Distinct(Map(rows, EmployeeOf())), GroupLine(rows))
  }

  /** MAX over no lines is NULL, which equals nothing. */
  function Best(lines: seq<Line>): int
    requires lines != []
  {
    if |lines| == 1 then lines[0].resolved
    else
      var m := Best(lines[1..]);
      if lines[0].resolved > m then lines[0].resolved else m
  }

  function IsBest(lines: seq<Line>): Line -> bool
  {
    (l: Line) => lines != [] && l.resolved == Best(lines)
  }

  function Report(employees: seq<Employee>, tickets: seq<Ticket>): seq<Line>
  {
    Where(Counts(employees, tickets), IsBest(Counts(employees, tickets)))
  }

  // ----- what it should say -----

  /** How many of the tickets are the employee's and resolved. */
  function Score(e: Employee, tickets: seq<Ticket>): nat
  {
    if tickets == [] then 0
    else (if tickets[0].employee == e.id && tickets[0].status == Resolved then 1 else 0) + Score(e, tickets[1..])
  }

  lemma {:induction false} ScoreIsWhere(e: Employee, tickets: seq<Ticket>)
    ensures Score(e, tickets) == |Where(tickets, ResolvedBy(e))|
  {
    if tickets != [] { ScoreIsWhere(e, tickets[1..]); }
  }

  ghost predicate Keyed(employees: seq<Employee>)
  {
    forall i, j :: 0 <= i < j < |employees| ==> employees[i].id != employees[j].id
  }

  lemma {:induction false} GroupIsTheEmployees(employees: seq<Employee>, tickets: seq<Ticket>, e: Employee)
    requires Keyed(employees)
    ensures Where(Join(employees, tickets), IsOf(e)) ==
            if e in employees then Map(Where(tickets, ResolvedBy(e)), Pair(e)) else []
  {
    if employees != [] {
      var d, rest := employees[0], employees[1..];
      var own := Map(Where(tickets, ResolvedBy(d)), Pair(d));
      GroupIsTheEmployees(rest, tickets, e);
      WhereAppend(own, Join(rest, tickets), IsOf(e));
      assert forall j :: j in own ==> j.employee == d;
      if d == e {
        WhereAll(own, IsOf(e));
        assert e !in rest;
      } else {
        WhereNone(own, IsOf(e));
      }
    }
  }

  lemma LineOf(employees: seq<Employee>, tickets: seq<Ticket>, l: Line)
    requires Keyed(employees)
    ensures l in Counts(employees, tickets) <==>
              l.employee in employees && l.resolved == Score(l.employee, tickets) && l.resolved > 0
  {
    var rows := Join(employees, tickets);
    GroupIsTheEmployees(employees, tickets, l.employee);
    MapIn(Distinct(Map(rows, EmployeeOf())), GroupLine(rows), l);
    MapIn(rows, EmployeeOf(), l.employee);
    var mine := Where(rows, IsOf(l.employee));
    if j :| j in rows && EmployeeOf()(j) == l.employee { WhereIn(rows, IsOf(l.employee), j); }
    if mine != [] { WhereIn(rows, IsOf(l.employee), mine[0]); }
    ScoreIsWhere(l.employee, tickets);
  }

  lemma {:induction false} BestIsGreatest(lines: seq<Line>)
    requires lines != []
    ensures exists l :: l in lines && l.resolved == Best(lines)
    ensures forall l :: l in lines ==> l.resolved <= Best(lines)
  {
    if |lines| > 1 {
      BestIsGreatest(lines[1..]);
      assert lines == [lines[0]] + lines[1..];
      var l :| l in lines[1..] && l.resolved == Best(lines[1..]);
      assert l in lines && lines[0] in lines;
    } else {
      assert lines[0] in lines;
    }
  }

  /**
   * The report is right: an employee is on it, once, with their number of resolved tickets, exactly if that number
   * is positive and no employee has more; so everyone tied at the top is kept.
   */
  lemma ReportIsExact(employees: seq<Employee>, tickets: seq<Ticket>, l: Line)
    requires Keyed(employees)
    ensures multiset(Report(employees, tickets))[l] ==
              if l.employee in employees && l.resolved == Score(l.employee, tickets) && l.resolved > 0
                 && forall e :: e in employees ==> Score(e, tickets) <= l.resolved
              then 1 else 0
  {
    var lines, rows := Counts(employees, tickets), Join(employees, tickets);
    var groups := Distinct(Map(rows, EmployeeOf()));
    GroupedOnce(groups, GroupLine(rows), IsBest(lines), l);
    MapIn(groups, GroupLine(rows), l);
    LineOf(employees, tickets, l);
    if lines != [] {
      BestIsGreatest(lines);
      var top :| top in lines && top.resolved == Best(lines);
      LineOf(employees, tickets, top);
      forall e | e in employees ensures Score(e, tickets) <= Best(lines) {
        LineOf(employees, tickets, Line(e, Score(e, tickets)));
      }
    }
  }

  // ----- nothing is lost in the grouping -----

  function Scores(employees: seq<Employee>, tickets: seq<Ticket>): nat
  {
    if employees == [] then 0 else Score(employees[0], tickets) + Scores(employees[1..], tickets)
  }

  function IsResolved(): Ticket -> bool { (t: Ticket) => t.status == Resolved }

  ghost predicate HasEmployee(employees: seq<Employee>, t: Ticket)
  {
    exists e :: e in employees && e.id == t.employee
  }

  lemma {:induction false} OneMoreTicket(employees: seq<Employee>, t: Ticket, tickets: seq<Ticket>)
    requires Keyed(employees)
    ensures Scores(employees, [t] + tickets) == Scores(employees, tickets) +
              if t.status == Resolved && HasEmployee(employees, t) then 1 else 0
  {
    if employees != [] {
      var e, rest := employees[0], employees[1..];
      OneMoreTicket(rest, t, tickets);
      assert ([t] + tickets)[1..] == tickets;
      assert HasEmployee(employees, t) <==> e.id == t.employee || HasEmployee(rest, t) by {
        assert forall d :: d in employees <==> d == e || d in rest;
        assert e in employees;
      }
      assert forall d :: d in rest ==> d.id != e.id;
    }
  }

  lemma {:induction false} NoTicketsNoScores(employees: seq<Employee>)
    ensures Scores(employees, []) == 0
  {
    if employees != [] { NoTicketsNoScores(employees[1..]); }
  }

  /** With every ticket assigned to a listed employee, the scores add up to the number of resolved tickets. */
  lemma {:induction false} ScoresAddUp(employees: seq<Employee>, tickets: seq<Ticket>)
    requires Keyed(employees) && forall t :: t in tickets ==> HasEmployee(employees, t)
    ensures Scores(employees, tickets) == |Where(tickets, IsResolved())|
  {
    if tickets == [] {
      NoTicketsNoScores(employees);
    } else {
      ScoresAddUp(employees, tickets[1..]);
      OneMoreTicket(employees, tickets[0], tickets[1..]);
      assert tickets == [tickets[0]] + tickets[1..];
    }
  }

  function ResolvedOf(): Line -> int { (l: Line) => l.resolved }

  lemma {:induction false} JoinSize(employees: seq<Employee>, tickets: seq<Ticket>)
    ensures |Join(employees, tickets)| == Scores(employees, tickets)
  {
    if employees != [] {
      JoinSize(employees[1..], tickets);
      ScoreIsWhere(employees[0], tickets);
    }
  }

  function GroupSizes(groups: seq<Employee>, rows: seq<Joined>): nat
  {
    if groups == [] then 0 else |Where(rows, IsOf(groups[0]))| + GroupSizes(groups[1..], rows)
  }

  lemma {:induction false} OneMoreRow(groups: seq<Employee>, r: Joined, rows: seq<Joined>)
    requires Unique(groups)
    ensures GroupSizes(groups, [r] + rows) == GroupSizes(groups, rows) + if r.employee in groups then 1 else 0
  {
    if groups != [] {
      OneMoreRow(groups[1..], r, rows);
      assert ([r] + rows)[1..] == rows;
      assert groups == [groups[0]] + groups[1..];
    }
  }

  lemma {:induction false} GroupsCover(groups: seq<Employee>, rows: seq<Joined>)
    requires Unique(groups) && forall j :: j in rows ==> j.employee in groups
    ensures GroupSizes(groups, rows) == |rows|
  {
    if rows == [] {
      NoRowsNoSizes(groups);
    } else {
      GroupsCover(groups, rows[1..]);
      OneMoreRow(groups, rows[0], rows[1..]);
      assert rows == [rows[0]] + rows[1..];
    }
  }

  lemma {:induction false} NoRowsNoSizes(groups: seq<Employee>)
    ensures GroupSizes(groups, []) == 0
  {
    if groups != [] { NoRowsNoSizes(groups[1..]); }
  }

  lemma {:induction false} LinesSum(groups: seq<Employee>, rows: seq<Joined>)
    ensures SumSeq(Map(groups, GroupLine(rows)), ResolvedOf()) == GroupSizes(groups, rows)
  {
    if groups != [] {
      LinesSum(groups[1..], rows);
      assert Map(groups, GroupLine(rows))[1..] == Map(groups[1..], GroupLine(rows));
    }
  }

  /** The counts of the common table expression add up to the number of resolved tickets. */
  lemma CountsAddUp(employees: seq<Employee>, tickets: seq<Ticket>)
    requires Keyed(employees) && forall t :: t in tickets ==> HasEmployee(employees, t)
    ensures SumSeq(Counts(employees, tickets), ResolvedOf()) == |Where(tickets, IsResolved())|
  {
    var rows := Join(employees, tickets);
    var groups := Distinct(Map(rows, EmployeeOf()));
    forall j | j in rows ensures j.employee in groups { MapIn(rows, EmployeeOf(), j.employee); }
    LinesSum(groups, rows);
    GroupsCover(groups, rows);
    JoinSize(employees, tickets);
    ScoresAddUp(employees, tickets);
  }

  /** The report is empty exactly when no ticket is resolved. */
  lemma EmptyReport(employees: seq<Employee>, tickets: seq<Ticket>)
    requires Keyed(employees) && forall t :: t in tickets ==> HasEmployee(employees, t)
    ensures Report(employees, tickets) == [] <==> forall t :: t in tickets ==> t.status != Resolved
  {
    var lines := Counts(employees, tickets);
    CountsAddUp(employees, tickets);
    if t :| t in tickets && t.status == Resolved {
      WhereIn(tickets, IsResolved(), t);
      BestIsGreatest(lines);
      var top :| top in lines && top.resolved == Best(lines);
      WhereIn(lines, IsBest(lines), top);
    } else {
      WhereNone(tickets, IsResolved());
      if lines != [] {
        LineOf(employees, tickets, lines[0]);
        ScoreIsWhere(lines[0].employee, tickets);
        WhereNone(tickets, ResolvedBy(lines[0].employee));
      }
    }
  }
}
