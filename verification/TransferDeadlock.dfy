/** Exactly when transfers can deadlock: if their calls hold a ring, each wanting the row that the next has locked. */
module TransferDeadlock {
  import opened Sums
  import opened Bank
  import opened TransferMachine
  import opened TransferInvariant
  import opened TransferSafety
  import opened TransferLiveness
  import opened TransferRequests

  ghost predicate Stuck(s: State)
  {
    && (exists d :: 0 <= d < |s.clients| && s.clients[d].todo != [])
    && (forall c :: 0 <= c < |s.clients| ==> Advance(s, c) == None)
  }

  /** A call in the clients' work lists. */
  datatype Place = Place(client: nat, call: nat)

  predicate InWork(work: seq<seq<Job>>, p: Place)
  {
    p.client < |work| && p.call < |work[p.client]|
  }

  function JobAt(work: seq<seq<Job>>, p: Place): Job
    requires InWork(work, p)
  {
    work[p.client][p.call]
  }

  /** The call passes the Python checks, and both of its rows exist and differ. */
  predicate LocksTwo(db: Db, job: Job)
  {
    job.amount > 0 && !job.sameSpelling && job.First() != job.Second()
    && job.First() in db.accounts && job.Second() in db.accounts
  }

  function Next(i: nat, n: nat): nat
    requires i < n
  {
    if i + 1 == n then 0 else i + 1
  }

  /** Calls of different clients, no more than the pool serves, each one's second row being the next one's first. */
  ghost predicate Ring(db: Db, pool: nat, work: seq<seq<Job>>, ring: seq<Place>)
  {
    && 2 <= |ring| <= pool
    && (forall i :: 0 <= i < |ring| ==> InWork(work, ring[i]) && LocksTwo(db, JobAt(work, ring[i])))
    && (forall i, j :: 0 <= i < j < |ring| ==>
          ring[i].client != ring[j].client && JobAt(work, ring[i]).First() != JobAt(work, ring[j]).First())
    && (forall i :: 0 <= i < |ring| ==>
          JobAt(work, ring[i]).Second() == JobAt(work, ring[Next(i, |ring|)]).First())
  }

  // ----- a stuck state holds a ring -----

  /** Client c is blocked on row k, which another client has locked. */
  ghost predicate WaitsFor(s: State, c: nat, k: Key)
    requires c < |s.clients|
  {
    && s.clients[c].todo != []
    && ((s.clients[c].phase.Began? && k == s.clients[c].todo[0].First())
        || (s.clients[c].phase.FirstLocked? && k == s.clients[c].todo[0].Second()))
    && k in s.locks && s.locks[k] != c
  }

  lemma StuckHow(s: State, base: Db, c: nat)
    requires Inv(s, base) && c < |s.clients| && Advance(s, c) == None
    ensures s.clients[c].todo == [] ==> s.clients[c].phase.Idle?
    ensures s.clients[c].todo != [] ==>
              || (s.clients[c].phase.Waiting? && s.free == 0)
              || WaitsFor(s, c, s.clients[c].todo[0].First()) || WaitsFor(s, c, s.clients[c].todo[0].Second())
  {
    assert OwnOk(s, base, s.clients[c], c);
    hide Inv;
  }

  /** In a stuck state the holder of a wanted row has locked just that row, existing, and waits for its second. */
  lemma HolderWaits(s: State, base: Db, c: nat, k: Key) returns (h: nat)
    requires Inv(s, base) && Stuck(s) && c < |s.clients| && WaitsFor(s, c, k)
    ensures h < |s.clients| && h == s.locks[k] && h != c && s.clients[h].phase.FirstLocked? && s.clients[h].todo != []
    ensures s.clients[h].todo[0].First() == k && WaitsFor(s, h, s.clients[h].todo[0].Second())
    ensures s.clients[h].todo[0].amount > 0 && !s.clients[h].todo[0].sameSpelling && k in base.accounts
  {
    h := s.locks[k];
    assert HeldBy(s, base, k);
    assert OwnOk(s, base, s.clients[h], h) && Holds(s.locks, h, k);
    StuckHow(s, base, h);
    hide Inv, Advance;
  }

  /** Client c holds its first row, waits for its second, and its call passed the Python checks. */
  ghost predicate Blocked(s: State, base: Db, c: nat)
  {
    && c < |s.clients| && s.clients[c].phase.FirstLocked? && s.clients[c].todo != []
    && var job := s.clients[c].todo[0];
       && WaitsFor(s, c, job.Second()) && Holds(s.locks, c, job.First())
       && job.First() in base.accounts && job.amount > 0 && !job.sameSpelling
  }

  ghost predicate Follows(s: State, c: nat, d: nat)
  {
    && c < |s.clients| && s.clients[c].todo != [] && d < |s.clients| && s.clients[d].todo != []
    && s.clients[c].todo[0].Second() == s.clients[d].todo[0].First()
  }

  lemma SomeBlocked(s: State, base: Db, pool: nat) returns (h: nat)
    requires Inv(s, base) && PoolOk(s, pool) && pool > 0 && Stuck(s)
    ensures Blocked(s, base, h)
  {
    var c :| 0 <= c < |s.clients| && s.clients[c].todo != [];
    StuckHow(s, base, c);
    if s.clients[c].phase.Waiting? {
      if forall i :: 0 <= i < |s.clients| ==> Connections()(s.clients[i]) == 0 {
        SumSeqZero(s.clients, Connections());
      }
      c :| 0 <= c < |s.clients| && Connections()(s.clients[c]) != 0;
      StuckHow(s, base, c);
    }
    hide Inv, Advance, PoolOk;
    var job := s.clients[c].todo[0];
    h := HolderWaits(s, base, c, if WaitsFor(s, c, job.First()) then job.First() else job.Second());
  }

  lemma NextBlocked(s: State, base: Db, c: nat) returns (h: nat)
    requires Inv(s, base) && Stuck(s) && Blocked(s, base, c)
    ensures Blocked(s, base, h) && h != c && Follows(s, c, h)
  {
    hide Inv, Stuck;
    h := HolderWaits(s, base, c, s.clients[c].todo[0].Second());
  }

  ghost predicate Distinct(path: seq<nat>)
  {
    forall i, j :: 0 <= i < j < |path| ==> path[i] != path[j]
  }

  function Unmet(s: State, path: seq<nat>): set<nat>
  {
    set c: nat | c < |s.clients| && c !in path
  }

  lemma OneMoreMet(s: State, path: seq<nat>, h: nat)
    requires h < |s.clients| && h !in path
    ensures Unmet(s, path + [h]) < Unmet(s, path)
  {
    assert h in Unmet(s, path) && h !in Unmet(s, path + [h]);
  }

  /** Different blocked clients, each wanting the row that the next has locked. */
  ghost predicate Chain(s: State, base: Db, path: seq<nat>)
  {
    && path != [] && Distinct(path)
    && (forall i :: 0 <= i < |path| ==> Blocked(s, base, path[i]))
    && (forall i :: 0 <= i < |path| - 1 ==> Follows(s, path[i], path[i + 1]))
  }

  lemma LongerChain(s: State, base: Db, path: seq<nat>, h: nat)
    requires Chain(s, base, path) && Blocked(s, base, h) && h !in path && Follows(s, path[|path| - 1], h)
    ensures Chain(s, base, path + [h])
  {
    hide Blocked, Follows;
  }

  /** A chain whose last client wants the row of its i-th closes to a ring from there. */
  lemma ClosedChain(s: State, base: Db, path: seq<nat>, i: nat)
    requires Chain(s, base, path) && i < |path| - 1 && Follows(s, path[|path| - 1], path[i])
    ensures Chain(s, base, path[i..])
    ensures forall j :: 0 <= j < |path| - i ==> Follows(s, path[i..][j], path[i..][Next(j, |path| - i)])
  {
    hide Blocked, Follows;
  }

  /** Going from each blocked client to the holder of the row it wants must come back to a client already met. */
  lemma {:induction false} FindRing(s: State, base: Db, path: seq<nat>) returns (ring: seq<nat>)
    requires Inv(s, base) && Stuck(s) && Chain(s, base, path)
    ensures |ring| >= 2 && Chain(s, base, ring)
    ensures forall i :: 0 <= i < |ring| ==> Follows(s, ring[i], ring[Next(i, |ring|)])
    decreases Unmet(s, path)
  {
    var last := path[|path| - 1];
    var h := NextBlocked(s, base, last);
    assert h < |s.clients|;
    hide Inv, Stuck, Follows, Blocked, Chain, Unmet;
    if h in path {
      var i :| 0 <= i < |path| && path[i] == h;
      ClosedChain(s, base, path, i);
      ring := path[i..];
    } else {
      OneMoreMet(s, path, h);
      LongerChain(s, base, path, h);
      ring := FindRing(s, base, path + [h]);
    }
  }

  /** Each of different clients inside a unit of work has its own connection. */
  lemma {:induction false} OneConnectionEach(clients: seq<Client>, some: seq<nat>)
    requires Distinct(some)
    requires forall i :: 0 <= i < |some| ==> some[i] < |clients| && Connections()(clients[some[i]]) == 1
    ensures |some| <= SumSeq(clients, Connections())
    decreases |some|
  {
    if some == [] {
      SumSeqNonNegative(clients, Connections());
    } else {
      var idle := Client([], Idle, [], []);
      SumSeqUpdate(clients, Connections(), some[0], idle);
      OneConnectionEach(clients[some[0] := idle], some[1..]);
    }
  }

  lemma StuckHasARing(db: Db, pool: nat, work: seq<seq<Job>>, schedule: seq<Choice>) returns (ring: seq<Place>)
    requires InRange(db.accounts) && pool > 0 && Stuck(Run(Start(db, pool, work), schedule))
    ensures Ring(db, pool, work, ring)
  {
    var s := Run(Start(db, pool, work), schedule);
    var base := Replay(db, s.log);
    RunInv(db, pool, work, schedule);
    RunPool(db, pool, work, schedule);
    ReplayConserves(db, s.log);
    var h := SomeBlocked(s, base, pool);
    var cs := FindRing(s, base, [h]);
    OneConnectionEach(s.clients, cs);
    ring := seq(|cs|, i requires 0 <= i < |cs| => Place(cs[i], |Calls(s.log, cs[i])|));
    hide Inv, Stuck, Run, Start, Replay, Agrees;
    forall i | 0 <= i < |cs|
      ensures InWork(work, ring[i]) && JobAt(work, ring[i]) == s.clients[cs[i]].todo[0]
    {
      assert Blocked(s, base, cs[i]);
      NextCall(db, pool, work, schedule, cs[i]);
    }
    RingOfPlaces(s, base, db, pool, work, cs, ring);
  }

  lemma RingOfPlaces(s: State, base: Db, db: Db, pool: nat, work: seq<seq<Job>>, cs: seq<nat>, ring: seq<Place>)
    requires base.accounts.Keys == db.accounts.Keys && 2 <= |cs| == |ring| <= pool
    requires Distinct(cs) && forall i :: 0 <= i < |cs| ==> Blocked(s, base, cs[i])
    requires forall i :: 0 <= i < |cs| ==> Follows(s, cs[i], cs[Next(i, |cs|)])
    requires forall i :: 0 <= i < |cs| ==>
               && cs[i] < |s.clients| && s.clients[cs[i]].todo != []
               && ring[i].client == cs[i] && InWork(work, ring[i]) && JobAt(work, ring[i]) == s.clients[cs[i]].todo[0]
    ensures Ring(db, pool, work, ring)
  {
    hide InWork, JobAt;
    forall i | 0 <= i < |ring| ensures LocksTwo(db, JobAt(work, ring[i])) {
      assert Blocked(s, base, cs[i]) && Blocked(s, base, cs[Next(i, |cs|)]) && Follows(s, cs[i], cs[Next(i, |cs|)]);
    }
    forall i, j | 0 <= i < j < |ring| ensures JobAt(work, ring[i]).First() != JobAt(work, ring[j]).First() {
      assert Blocked(s, base, cs[i]) && Blocked(s, base, cs[j]);
    }
    forall i | 0 <= i < |ring| ensures JobAt(work, ring[i]).Second() == JobAt(work, ring[Next(i, |ring|)]).First() {
      assert Follows(s, cs[i], cs[Next(i, |cs|)]);
    }
  }

  // ----- a ring deadlocks: first, one client at a time -----

  ghost predicate IdleBut(s: State, c: nat)
  {
    forall d :: 0 <= d < |s.clients| && d != c ==> s.clients[d].phase.Idle?
  }

  /** A client alone inside its calls is never blocked. */
  lemma AloneMoves(s: State, base: Db, pool: nat, c: nat)
    requires Inv(s, base) && PoolOk(s, pool) && pool > 0
    requires c < |s.clients| && s.clients[c].todo != [] && IdleBut(s, c)
    ensures Advance(s, c).Some?
  {
    if Advance(s, c) == None {
      StuckHow(s, base, c);
      if s.clients[c].phase.Waiting? {
        SumSeqZero(s.clients, Connections());
      } else {
        var job := s.clients[c].todo[0];
        assert HeldBy(s, base, if WaitsFor(s, c, job.First()) then job.First() else job.Second());
      }
    }
  }

  lemma {:induction false} OneCall(db: Db, pool: nat, work: seq<seq<Job>>, schedule: seq<Choice>, c: nat)
    returns (longer: seq<Choice>)
    requires InRange(db.accounts) && pool > 0
    requires var s := Run(Start(db, pool, work), schedule);
             c < |s.clients| && s.clients[c].todo != [] && IdleBut(s, c)
    ensures var s, t := Run(Start(db, pool, work), schedule), Run(Start(db, pool, work), longer);
            && |t.clients| == |s.clients| && t.clients == s.clients[c := t.clients[c]]
            && t.clients[c].phase.Idle? && t.clients[c].todo == s.clients[c].todo[1..]
    decreases Remaining()(Run(Start(db, pool, work), schedule).clients[c])
  {
    var s := Run(Start(db, pool, work), schedule);
    var ch := Choice(c, false);
    RunInv(db, pool, work, schedule);
    RunPool(db, pool, work, schedule);
    AloneMoves(s, Replay(db, s.log), pool, c);
    var s' := Advance(s, c).value;
    StepShape(s, ch, s');
    StepLocal(s, ch, s');
    RunAppend(Start(db, pool, work), schedule, ch, s');
    hide Inv, Run, Start, Advance, PoolOk, Agrees;
    longer := schedule + [ch];
    if s'.clients[c].todo == s.clients[c].todo {
      longer := OneCall(db, pool, work, longer, c);
    }
  }

  lemma {:induction false} SomeCalls(db: Db, pool: nat, work: seq<seq<Job>>, schedule: seq<Choice>, c: nat, n: nat)
    returns (longer: seq<Choice>)
    requires InRange(db.accounts) && pool > 0
    requires var s := Run(Start(db, pool, work), schedule);
             c < |s.clients| && n <= |s.clients[c].todo| && IdleBut(s, |s.clients|)
    ensures var s, t := Run(Start(db, pool, work), schedule), Run(Start(db, pool, work), longer);
            && |t.clients| == |s.clients| && t.clients == s.clients[c := t.clients[c]]
            && t.clients[c].phase.Idle? && t.clients[c].todo == s.clients[c].todo[n..]
    decreases n
  {
    if n == 0 {
      longer := schedule;
    } else {
      var next := OneCall(db, pool, work, schedule, c);
      hide Run, Start;
      longer := SomeCalls(db, pool, work, next, c, n - 1);
    }
  }

  ghost predicate IdleWith(s: State, d: nat, todo: seq<Job>)
  {
    d < |s.clients| && s.clients[d].phase.Idle? && s.clients[d].todo == todo
  }

  /** The first m clients, one after another, make the given numbers of calls, and everybody is idle again. */
  lemma {:induction false} Prepare(db: Db, pool: nat, work: seq<seq<Job>>, done: seq<nat>, m: nat)
    returns (schedule: seq<Choice>)
    requires InRange(db.accounts) && pool > 0
    requires m <= |work| == |done| && forall d :: 0 <= d < |work| ==> done[d] <= |work[d]|
    ensures var s := Run(Start(db, pool, work), schedule);
            && |s.clients| == |work|
            && (forall d :: 0 <= d < m ==> IdleWith(s, d, work[d][done[d]..]))
            && (forall d :: m <= d < |work| ==> IdleWith(s, d, work[d]))
    decreases m
  {
    if m == 0 {
      schedule := [];
    } else {
      var c := m - 1;
      var before := Prepare(db, pool, work, done, c);
      var s := Run(Start(db, pool, work), before);
      hide Run, Start;
      assert IdleWith(s, c, work[c]);
      forall d | 0 <= d < |s.clients| ensures s.clients[d].phase.Idle? {
        assert if d < c then IdleWith(s, d, work[d][done[d]..]) else IdleWith(s, d, work[d]);
      }
      schedule := SomeCalls(db, pool, work, before, c, done[c]);
      var t := Run(Start(db, pool, work), schedule);
      forall d | 0 <= d < |work| && d != c ensures t.clients[d] == s.clients[d] {
      }
    }
  }

  // ----- then each member of the ring up to its first lock -----

  /** The first four steps of a client's first call, up to its first lock. */
  lemma ToFirstLock(s: State, c: nat, done: seq<Choice>, start: State) returns (longer: seq<Choice>)
    requires s == Run(start, done)
    requires c < |s.clients| && s.clients[c].todo != [] && s.clients[c].phase.Idle? && s.free > 0
    requires s.clients[c].todo[0].amount > 0 && !s.clients[c].todo[0].sameSpelling
    requires s.clients[c].todo[0].First() in s.db.accounts && s.clients[c].todo[0].First() !in s.locks
    ensures var row := Lookup(s.db.accounts, s.clients[c].todo[0].First());
            Run(start, longer) == Put(s, c, s.clients[c].(phase := FirstLocked(row)))
                                  .(free := s.free - 1, locks := s.locks[s.clients[c].todo[0].First() := c])
  {
    var ch, cl := Choice(c, false), s.clients[c];
    var k := cl.todo[0].First();
    var s1 := Put(s, c, cl.(phase := Waiting));
    var s2 := Put(s1, c, cl.(phase := Connected)).(free := s.free - 1);
    var s3 := Put(s2, c, cl.(phase := Began));
    var s4 := Put(s3, c, cl.(phase := FirstLocked(Lookup(s.db.accounts, k)))).(locks := s.locks[k := c]);
    RunAppend(start, done, ch, s1);
    RunAppend(start, done + [ch], ch, s2);
    RunAppend(start, done + [ch] + [ch], ch, s3);
    longer := done + [ch] + [ch] + [ch] + [ch];
    RunAppend(start, done + [ch] + [ch] + [ch], ch, s4);
    assert s4.clients == s.clients[c := s4.clients[c]];
  }

  lemma RunAppend(start: State, done: seq<Choice>, ch: Choice, s': State)
    requires Step(Run(start, done), ch) == Some(s')
    ensures Run(start, done + [ch]) == s'
  {
    assert (done + [ch])[..|done|] == done;
  }

  /** How many calls client d makes before the ring closes: those before its place, or all of them. */
  function CallsBefore(work: seq<seq<Job>>, ring: seq<Place>, d: nat): nat
    requires d < |work|
  {
    if ring == [] then |work[d]| else if ring[0].client == d then ring[0].call else CallsBefore(work, ring[1..], d)
  }

  lemma {:induction false} CallsBeforeRing(work: seq<seq<Job>>, ring: seq<Place>, d: nat)
    requires d < |work| && forall i :: 0 <= i < |ring| ==> InWork(work, ring[i])
    requires forall i, j :: 0 <= i < j < |ring| ==> ring[i].client != ring[j].client
    ensures CallsBefore(work, ring, d) <= |work[d]|
    ensures forall i :: 0 <= i < |ring| && ring[i].client == d ==> CallsBefore(work, ring, d) == ring[i].call
    ensures (forall i :: 0 <= i < |ring| ==> ring[i].client != d) ==> CallsBefore(work, ring, d) == |work[d]|
  {
    if ring != [] { CallsBeforeRing(work, ring[1..], d); }
  }

  /** Client c's next call is this one. */
  predicate NextIs(s: State, c: nat, job: Job)
  {
    c < |s.clients| && s.clients[c].todo != [] && s.clients[c].todo[0] == job
  }

  /** Everybody is idle, the clients cs with the given calls next, all others with none. */
  ghost predicate Ready(s: State, pool: nat, cs: seq<nat>, jobs: seq<Job>)
  {
    && s.locks == map[] && s.free == pool && |cs| == |jobs|
    && (forall d :: 0 <= d < |s.clients| ==> s.clients[d].phase.Idle?)
    && (forall i :: 0 <= i < |cs| ==> NextIs(s, cs[i], jobs[i]))
    && (forall d :: 0 <= d < |s.clients| && d !in cs ==> s.clients[d].todo == [])
  }

  function Clients(ring: seq<Place>): seq<nat>
  {
    seq(|ring|, i requires 0 <= i < |ring| => ring[i].client)
  }

  function JobsOf(work: seq<seq<Job>>, ring: seq<Place>): seq<Job>
    requires forall i :: 0 <= i < |ring| ==> InWork(work, ring[i])
  {
    seq(|ring|, i requires 0 <= i < |ring| => JobAt(work, ring[i]))
  }

  /** Numbers of calls that bring each client of the ring to its place, and every other client to its end. */
  ghost predicate UpTo(work: seq<seq<Job>>, ring: seq<Place>, done: seq<nat>)
  {
    && |done| == |work|
    && (forall d :: 0 <= d < |work| ==> done[d] <= |work[d]|)
    && (forall i :: 0 <= i < |ring| ==> InWork(work, ring[i]) && done[ring[i].client] == ring[i].call)
    && (forall d :: 0 <= d < |work| && d !in Clients(ring) ==> done[d] == |work[d]|)
  }

  lemma Counts(work: seq<seq<Job>>, ring: seq<Place>) returns (done: seq<nat>)
    requires forall i :: 0 <= i < |ring| ==> InWork(work, ring[i])
    requires forall i, j :: 0 <= i < j < |ring| ==> ring[i].client != ring[j].client
    ensures UpTo(work, ring, done)
  {
    done := seq(|work|, d requires 0 <= d < |work| => CallsBefore(work, ring, d));
    hide CallsBefore;
    forall d | 0 <= d < |work|
      ensures done[d] <= |work[d]|
      ensures forall i :: 0 <= i < |ring| && ring[i].client == d ==> done[d] == ring[i].call
      ensures d !in Clients(ring) ==> done[d] == |work[d]|
    {
      CallsBeforeRing(work, ring, d);
      if d !in Clients(ring) {
        forall i | 0 <= i < |ring| ensures ring[i].client != d { assert Clients(ring)[i] == ring[i].client; }
      }
    }
  }

  lemma RingComesNext(s: State, pool: nat, work: seq<seq<Job>>, ring: seq<Place>, done: seq<nat>)
    requires s.locks == map[] && s.free == pool && |s.clients| == |work| && UpTo(work, ring, done)
    requires forall d :: 0 <= d < |work| ==> IdleWith(s, d, work[d][done[d]..])
    ensures Ready(s, pool, Clients(ring), JobsOf(work, ring))
  {
    var cs, jobs := Clients(ring), JobsOf(work, ring);
    forall i | 0 <= i < |ring| ensures NextIs(s, cs[i], jobs[i]) {
      assert InWork(work, ring[i]);
      assert IdleWith(s, ring[i].client, work[ring[i].client][ring[i].call..]);
    }
    forall d | 0 <= d < |s.clients|
      ensures s.clients[d].phase.Idle? && (d !in cs ==> s.clients[d].todo == [])
    {
      assert IdleWith(s, d, work[d][done[d]..]);
    }
  }

  lemma GetReady(db: Db, pool: nat, work: seq<seq<Job>>, ring: seq<Place>) returns (schedule: seq<Choice>)
    requires InRange(db.accounts) && Ring(db, pool, work, ring)
    ensures var s := Run(Start(db, pool, work), schedule);
            Ready(s, pool, Clients(ring), JobsOf(work, ring)) && s.db.accounts.Keys == db.accounts.Keys
  {
    hide Run, Start;
    var done := Counts(work, ring);
    schedule := Prepare(db, pool, work, done, |work|);
    var s := Run(Start(db, pool, work), schedule);
    hide Ready, Ring, JobsOf, UpTo;
    forall d | 0 <= d < |s.clients| ensures s.clients[d].phase.Idle? {
      assert IdleWith(s, d, work[d][done[d]..]);
    }
    NothingHeld(db, pool, work, schedule);
    RingComesNext(s, pool, work, ring, done);
  }

  lemma NothingHeld(db: Db, pool: nat, work: seq<seq<Job>>, schedule: seq<Choice>)
    requires InRange(db.accounts)
    requires var s := Run(Start(db, pool, work), schedule);
             forall c :: 0 <= c < |s.clients| ==> s.clients[c].phase.Idle?
    ensures var s := Run(Start(db, pool, work), schedule);
            s.locks == map[] && s.free == pool && s.db.accounts.Keys == db.accounts.Keys
  {
    var s := Run(Start(db, pool, work), schedule);
    RunInv(db, pool, work, schedule);
    RunPool(db, pool, work, schedule);
    ReplayConserves(db, s.log);
    hide Run, Start, Agrees, Inv, PoolOk, Replay;
    AllIdle(s, Replay(db, s.log), pool);
  }

  /** Client c has locked its first row and waits for its second. */
  ghost predicate HasFirst(t: State, c: nat, job: Job)
  {
    c < |t.clients| && t.clients[c].phase.FirstLocked? && Holds(t.locks, c, job.First())
  }

  ghost predicate FirstsDiffer(jobs: seq<Job>)
  {
    forall i, j :: 0 <= i < j < |jobs| ==> jobs[i].First() != jobs[j].First()
  }

  /** From s to t the first n of the clients have locked their first rows, and nothing else has happened. */
  ghost predicate Locked(s: State, t: State, cs: seq<nat>, jobs: seq<Job>, n: nat)
    requires n <= |cs| == |jobs|
  {
    && t.db == s.db && t.free == s.free - n && |t.clients| == |s.clients|
    && (forall d :: 0 <= d < |s.clients| ==> t.clients[d].todo == s.clients[d].todo)
    && (forall d :: 0 <= d < |s.clients| && d !in cs[..n] ==> t.clients[d] == s.clients[d])
    && (forall i :: 0 <= i < n ==> HasFirst(t, cs[i], jobs[i]))
    && (forall k :: k in t.locks ==> exists i :: 0 <= i < n && k == jobs[i].First())
  }

  lemma {:induction false} LockFirst(start: State, pool: nat, cs: seq<nat>, jobs: seq<Job>, schedule: seq<Choice>,
                                     n: nat) returns (longer: seq<Choice>)
    requires Distinct(cs) && FirstsDiffer(jobs) && n <= |cs| == |jobs| <= pool
    requires Ready(Run(start, schedule), pool, cs, jobs)
    requires forall i :: 0 <= i < |jobs| ==> LocksTwo(Run(start, schedule).db, jobs[i])
    ensures Locked(Run(start, schedule), Run(start, longer), cs, jobs, n)
    decreases n
  {
    if n == 0 {
      longer := schedule;
    } else {
      var before := LockFirst(start, pool, cs, jobs, schedule, n - 1);
      var s, t := Run(start, schedule), Run(start, before);
      var c, job := cs[n - 1], jobs[n - 1];
      hide Run;
      assert NextIs(s, c, job) && LocksTwo(s.db, job);
      assert t.clients[c] == s.clients[c];
      longer := ToFirstLock(t, c, before, start);
      LockOneMore(s, t, Run(start, longer), cs, jobs, n);
    }
  }

  lemma OthersKeepFirst(t: State, t': State, c: nat, job: Job, d: nat, other: Job)
    requires c < |t.clients| && HasFirst(t, d, other) && d != c && other.First() != job.First()
    requires |t'.clients| == |t.clients| && t'.clients == t.clients[c := t'.clients[c]]
    requires t'.locks == t.locks[job.First() := c]
    ensures HasFirst(t', d, other)
  {
  }

  lemma FirstsLocked(t: State, t': State, cs: seq<nat>, jobs: seq<Job>, n: nat)
    requires Distinct(cs) && FirstsDiffer(jobs) && 0 < n <= |cs| == |jobs| && cs[n - 1] < |t.clients|
    requires forall i :: 0 <= i < n - 1 ==> HasFirst(t, cs[i], jobs[i])
    requires |t'.clients| == |t.clients| && t'.clients == t.clients[cs[n - 1] := t'.clients[cs[n - 1]]]
    requires t'.clients[cs[n - 1]].phase.FirstLocked? && t'.locks == t.locks[jobs[n - 1].First() := cs[n - 1]]
    ensures forall i :: 0 <= i < n ==> HasFirst(t', cs[i], jobs[i])
  {
    assert HasFirst(t', cs[n - 1], jobs[n - 1]);
    hide HasFirst;
    forall i | 0 <= i < n - 1 ensures HasFirst(t', cs[i], jobs[i]) {
      OthersKeepFirst(t, t', cs[n - 1], jobs[n - 1], cs[i], jobs[i]);
    }
  }

  lemma LockOneMore(s: State, t: State, t': State, cs: seq<nat>, jobs: seq<Job>, n: nat)
    requires Distinct(cs) && FirstsDiffer(jobs) && 0 < n <= |cs| == |jobs|
    requires Locked(s, t, cs, jobs, n - 1) && t.free > 0 && cs[n - 1] < |t.clients|
    requires var c, k := cs[n - 1], jobs[n - 1].First();
             t' == Put(t, c, t.clients[c].(phase := FirstLocked(Lookup(t.db.accounts, k))))
                   .(free := t.free - 1, locks := t.locks[k := c])
    ensures Locked(s, t', cs, jobs, n)
  {
    hide HasFirst, Distinct, FirstsDiffer;
    FirstsLocked(t, t', cs, jobs, n);
    assert cs[..n] == cs[..n - 1] + [cs[n - 1]];
    forall k | k in t'.locks ensures exists i :: 0 <= i < n && k == jobs[i].First() {
      if k != jobs[n - 1].First() {
        var i :| 0 <= i < n - 1 && k == jobs[i].First();
      }
    }
  }

  lemma WantsHeldRow(t: State, c: nat, job: Job, h: nat)
    requires HasFirst(t, c, job) && NextIs(t, c, job) && Holds(t.locks, h, job.Second()) && h != c
    ensures Advance(t, c) == None
  {
  }

  lemma MemberIsStuck(s: State, t: State, pool: nat, cs: seq<nat>, jobs: seq<Job>, i: nat)
    requires Distinct(cs) && 2 <= |cs| == |jobs| && Ready(s, pool, cs, jobs) && Locked(s, t, cs, jobs, |cs|)
    requires i < |cs| && jobs[i].Second() == jobs[Next(i, |cs|)].First()
    ensures cs[i] < |t.clients| && Advance(t, cs[i]) == None
  {
    var n := Next(i, |cs|);
    assert HasFirst(t, cs[i], jobs[i]) && NextIs(s, cs[i], jobs[i]) && HasFirst(t, cs[n], jobs[n]);
    assert t.clients[cs[i]].todo == s.clients[cs[i]].todo;
    hide Ready, Locked, Advance;
    WantsHeldRow(t, cs[i], jobs[i], cs[n]);
  }

  lemma OutsiderIsDone(s: State, t: State, pool: nat, cs: seq<nat>, jobs: seq<Job>, c: nat)
    requires |cs| == |jobs| && Ready(s, pool, cs, jobs) && Locked(s, t, cs, jobs, |cs|)
    requires c < |t.clients| && c !in cs
    ensures Advance(t, c) == None
  {
    assert cs[..|cs|] == cs;
    assert t.clients[c] == s.clients[c] && s.clients[c].phase.Idle? && s.clients[c].todo == [];
    hide Ready, Locked;
  }

  lemma RingLocks(s: State, t: State, pool: nat, cs: seq<nat>, jobs: seq<Job>)
    requires Distinct(cs) && 2 <= |cs| == |jobs| && Ready(s, pool, cs, jobs) && Locked(s, t, cs, jobs, |cs|)
    requires forall i :: 0 <= i < |cs| ==> jobs[i].Second() == jobs[Next(i, |cs|)].First()
    ensures Stuck(t)
  {
    assert NextIs(s, cs[0], jobs[0]);
    assert t.clients[cs[0]].todo != [];
    hide Ready, Locked, Advance, Distinct;
    forall c | 0 <= c < |t.clients| ensures Advance(t, c) == None {
      if i :| 0 <= i < |cs| && cs[i] == c {
        MemberIsStuck(s, t, pool, cs, jobs, i);
      } else {
        OutsiderIsDone(s, t, pool, cs, jobs, c);
      }
    }
  }

  /**
   * Exactly when calls can deadlock, for any number of clients and calls, any collation behind the keys and any pool:
   * there is a run into a state where unfinished calls remain and no client can move if and only if the work lists
   * hold a ring of calls of different clients, at least two and at most as many as the pool serves, each passing the
   * Python checks and wanting as its second row the one that the next locks first.
   */
  lemma {:induction false} DeadlockExactly(db: Db, pool: nat, work: seq<seq<Job>>)
    requires InRange(db.accounts) && pool > 0
    ensures (exists schedule :: Stuck(Run(Start(db, pool, work), schedule)))
       <==> exists ring :: Ring(db, pool, work, ring)
  {
    hide Stuck, Ring, Run, Start;
    if schedule :| Stuck(Run(Start(db, pool, work), schedule)) {
      var ring := StuckHasARing(db, pool, work, schedule);
    }
    if ring :| Ring(db, pool, work, ring) {
      var schedule := RingDeadlocks(db, pool, work, ring);
    }
  }

  lemma RingDeadlocks(db: Db, pool: nat, work: seq<seq<Job>>, ring: seq<Place>) returns (schedule: seq<Choice>)
    requires InRange(db.accounts) && Ring(db, pool, work, ring)
    ensures Stuck(Run(Start(db, pool, work), schedule))
  {
    var start, cs, jobs := Start(db, pool, work), Clients(ring), JobsOf(work, ring);
    var ready := GetReady(db, pool, work, ring);
    hide Run, Start, Stuck, Ready, Locked;
    schedule := LockFirst(start, pool, cs, jobs, ready, |ring|);
    RingLocks(Run(start, ready), Run(start, schedule), pool, cs, jobs);
  }

  // ----- two calls -----

  lemma {:induction false} Pigeonhole(s: seq<nat>, n: nat)
    requires Distinct(s) && forall i :: 0 <= i < |s| ==> s[i] < n
    ensures |s| <= n
    decreases n
  {
    if s != [] {
      assert s[0] < n;
      if i :| 0 <= i < |s| && s[i] == n - 1 {
        Pigeonhole(s[..i] + s[i + 1..], n - 1);
      } else {
        Pigeonhole(s, n - 1);
      }
    }
  }

  predicate Opposed(db: Db, a: Job, b: Job)
  {
    LocksTwo(db, a) && LocksTwo(db, b) && a.First() == b.Second() && a.Second() == b.First()
  }

  /**
   * Two concurrent transfers can deadlock exactly when both pass the Python checks, both rows exist, they lock the two
   * rows in opposite orders, and the pool hands out two connections.
   */
  lemma {:induction false} TwoTransfersDeadlock(db: Db, pool: nat, a: Job, b: Job)
    requires InRange(db.accounts) && pool > 0
    ensures (exists schedule :: Stuck(Run(Start(db, pool, [[a], [b]]), schedule))) <==> pool >= 2 && Opposed(db, a, b)
  {
    var work := [[a], [b]];
    DeadlockExactly(db, pool, work);
    hide Stuck, Run, Start, Ring, Opposed;
    if pool >= 2 && Opposed(db, a, b) { RingOfTwo(db, pool, a, b, [Place(0, 0), Place(1, 0)]); }
    forall ring | Ring(db, pool, work, ring) ensures pool >= 2 && Opposed(db, a, b) {
      OnlyRingOfTwo(db, pool, a, b, ring);
    }
  }

  lemma RingOfTwo(db: Db, pool: nat, a: Job, b: Job, ring: seq<Place>)
    requires pool >= 2 && Opposed(db, a, b) && ring == [Place(0, 0), Place(1, 0)]
    ensures Ring(db, pool, [[a], [b]], ring)
  {
  }

  lemma OnlyRingOfTwo(db: Db, pool: nat, a: Job, b: Job, ring: seq<Place>)
    requires Ring(db, pool, [[a], [b]], ring)
    ensures pool >= 2 && Opposed(db, a, b)
  {
    Pigeonhole(Clients(ring), 2);
    assert Next(0, |ring|) == 1 && Next(1, |ring|) == 0;
    assert InWork([[a], [b]], ring[0]) && InWork([[a], [b]], ring[1]);
  }

  // ----- spellings of one row break the order -----

  /** One call per client, as the database sees them under a case-insensitive collation. */
  function Folded(calls: seq<Call>): seq<seq<Job>>
  {
    seq(|calls|, i requires 0 <= i < |calls| => [Receive(FoldCase, calls[i])])
  }

  /**
   * Sorting spellings is not sorting rows: one caller sends from "a" to "B", another from "a" to "b", and under a
   * case-insensitive collation a run reaches a state where neither can ever take a normal step.
   */
  lemma {:induction false} TwoSpellingsDeadlock(db: Db, actor: Actor)
    requires InRange(db.accounts) && "a" in db.accounts && "b" in db.accounts
    ensures var work := Folded([DollarFrom(actor, "a", "B", "t1"), DollarFrom(actor, "a", "b", "t2")]);
            exists schedule :: Stuck(Run(Start(db, 2, work), schedule))
  {
    var work := Folded([DollarFrom(actor, "a", "B", "t1"), DollarFrom(actor, "a", "b", "t2")]);
    Dollar(actor, "a", "B", "t1");
    Dollar(actor, "a", "b", "t2");
    assert FoldCase("a") == "a" && FoldCase("B") == "b" && FoldCase("b") == "b";
    assert PyLess("B", "a") && !PyLess("b", "a");
    hide Stuck, Run, Start, FoldCase, PyLess, Receive;
    TwoTransfersDeadlock(db, 2, work[0][0], work[1][0]);
    assert work == [[work[0][0]], [work[1][0]]];
  }

  /**
   * Looking at pairs is not enough: of three callers sending from "a" to "b", from "b" to "c" and from "C" to "a", no
   * two can deadlock whatever the pool, and all three together can.
   */
  lemma {:induction false} ThreeSpellingsDeadlock(db: Db, actor: Actor)
    requires InRange(db.accounts) && "a" in db.accounts && "b" in db.accounts && "c" in db.accounts
    ensures var work := Folded([DollarFrom(actor, "a", "b", "t1"), DollarFrom(actor, "b", "c", "t2"),
                                DollarFrom(actor, "C", "a", "t3")]);
            && (exists schedule :: Stuck(Run(Start(db, 3, work), schedule)))
            && (forall pool: nat, i, j :: pool > 0 && 0 <= i < 3 && 0 <= j < 3 && i != j ==>
                  !exists schedule :: Stuck(Run(Start(db, pool, [work[i], work[j]]), schedule)))
  {
    var work := Folded([DollarFrom(actor, "a", "b", "t1"), DollarFrom(actor, "b", "c", "t2"),
                        DollarFrom(actor, "C", "a", "t3")]);
    Dollar(actor, "a", "b", "t1");
    Dollar(actor, "b", "c", "t2");
    Dollar(actor, "C", "a", "t3");
    assert FoldCase("a") == "a" && FoldCase("b") == "b" && FoldCase("c") == "c" && FoldCase("C") == "c";
    assert !PyLess("b", "a") && !PyLess("c", "b") && !PyLess("a", "C");
    hide Stuck, Run, Start, FoldCase, PyLess, Receive;
    ThreeButNotTwo(db, work);
  }

  lemma ThreeButNotTwo(db: Db, work: seq<seq<Job>>)
    requires InRange(db.accounts) && |work| == 3
    requires forall i :: 0 <= i < 3 ==> |work[i]| == 1 && LocksTwo(db, work[i][0])
    requires work[0][0].First() == "a" && work[1][0].First() == "b" && work[2][0].First() == "c"
    requires work[0][0].Second() == "b" && work[1][0].Second() == "c" && work[2][0].Second() == "a"
    ensures exists schedule :: Stuck(Run(Start(db, 3, work), schedule))
    ensures forall pool: nat, i, j :: pool > 0 && 0 <= i < 3 && 0 <= j < 3 && i != j ==>
              !exists schedule :: Stuck(Run(Start(db, pool, [work[i], work[j]]), schedule))
  {
    hide Stuck, Run, Start;
    assert "a"[0] != "b"[0] && "b"[0] != "c"[0] && "c"[0] != "a"[0];
    ThreeInARing(db, work);
    hide Ring, LocksTwo;
    forall pool: nat, i, j | pool > 0 && 0 <= i < 3 && 0 <= j < 3 && i != j
      ensures !exists schedule :: Stuck(Run(Start(db, pool, [work[i], work[j]]), schedule))
    {
      TwoTransfersDeadlock(db, pool, work[i][0], work[j][0]);
      assert work[i] == [work[i][0]] && work[j] == [work[j][0]];
    }
  }

  lemma ThreeInARing(db: Db, work: seq<seq<Job>>)
    requires InRange(db.accounts) && |work| == 3
    requires forall i :: 0 <= i < 3 ==> |work[i]| == 1 && LocksTwo(db, work[i][0])
    requires work[0][0].Second() == work[1][0].First() && work[1][0].Second() == work[2][0].First()
    requires work[2][0].Second() == work[0][0].First() && work[2][0].First() != work[0][0].First()
    ensures exists schedule :: Stuck(Run(Start(db, 3, work), schedule))
  {
    hide Stuck, Run, Start;
    assert Next(0, 3) == 1 && Next(1, 3) == 2 && Next(2, 3) == 0;
    assert Ring(db, 3, work, [Place(0, 0), Place(1, 0), Place(2, 0)]);
    DeadlockExactly(db, 3, work);
  }
}
