/** PGClient, method by method, as its threads execute it: each connector call may throw, and between any two steps
    every other thread of the process may run. Each method is proved to be a run of QueryMachine in which the calling
    thread takes exactly the steps of its own call. */
module PGClient {
  import opened Database
  import opened QueryMachine
  import opened Programs
  import opened Sums
  import PM = PoolMachine
  import TP = ThreadPool

  datatype PGStatus = PG_SUCCESS | PG_ERROR

  /** The connector calls, one per place in the program; a call throws if it is among the faults of the run. */
  datatype Site =
    | OpenConnection | CreateTransaction | QuoteName | SelectId | ResultIsEmpty | ResultGetFirst
    | QuotePayload | Insert | Commit
    | PrepareIsolation | ExecuteIsolation | SelectRows | ResultGetAll

  /** What the executing thread owns, and no other thread touches. */
  datatype Mine = Nothing | MyPersist(k: nat) | MySubmission(j: nat) | MyJob(w: nat)

  predicate Touches(a: Action, mine: Mine)
  {
    match mine
    case Nothing => false
    case MyPersist(k) => (a.PersistInsert? || a.PersistFails? || a.PersistCommit?) && a.k == k
    case MySubmission(j) => (a.NotifyOne? || a.NotifyNone? || a.QueryReturns?) && a.job == j
    case MyJob(w) => (a.RunSelect? || a.RunThrow? || a.RunLock? || a.RunUnlock?) && a.w == w
  }

  predicate Kept(s: Process, t: Process, mine: Mine)
  {
    match mine
    case Nothing => true
    case MyPersist(k) => k < |s.persists| ==> k < |t.persists| && t.persists[k] == s.persists[k]
    case MySubmission(j) => j < |s.jobs| ==> j < |t.jobs| && t.jobs[j] == s.jobs[j]
    case MyJob(w) =>
      RunningJob(s, w) ==> RunningJob(t, w) && t.work[w] == s.work[w] && t.pool.workers[w] == s.pool.workers[w]
  }

  lemma StepKeeps(s: Process, a: Action, mine: Mine)
    requires Enabled(s, a) && !Touches(a, mine)
    ensures Kept(s, Apply(s, a), mine)
  {
    if mine.MyJob? && RunningJob(s, mine.w) {
      OthersSpareWork(s, a, mine.w);
    }
  }

  /** The machine as the thread sees it that owns what is mine. */
  function Thread(mine: Mine): Machine<Process, Action>
  {
    Machine((s: Process, a: Action) => Enabled(s, a),
            (s: Process, a: Action) => if Enabled(s, a) then Apply(s, a) else s,
            (s: Process, a: Action) => !Touches(a, mine))
  }

  type Program = seq<Segment<Process, Action>>

  lemma {:induction false} WalkIsPath(mine: Mine, s: Process, acts: seq<Action>, t: Process)
    ensures CanWalk(Thread(mine), s, acts) && Walk(Thread(mine), s, acts) == t <==> Path(s, acts, t)
    decreases |acts|
  {
    if acts != [] && Enabled(s, acts[0]) {
      WalkIsPath(mine, Apply(s, acts[0]), acts[1..], t);
    }
  }

  /** Executing a program is a run of the process. */
  lemma DoesIsPath(mine: Mine, s: Process, program: Program, t: Process)
    requires Does(Thread(mine), s, program, t)
    ensures Path(s, Trace(Thread(mine), s, program), t)
  {
    WalkIsPath(mine, s, Trace(Thread(mine), s, program), t);
  }

  /** A schedule is followed exactly, if it is a run and leaves alone what is mine. */
  lemma {:induction false} ScheduleIsFollowed(mine: Mine, s: Process, schedule: seq<Action>, t: Process)
    requires Path(s, schedule, t) && forall a :: a in schedule ==> !Touches(a, mine)
    ensures AllForeign(Thread(mine), s, schedule) && Does(Thread(mine), s, [Pause(schedule)], t)
    ensures forall u :: Does(Thread(mine), s, [Pause(schedule)], u) ==> u == t
    decreases |schedule|
  {
    if schedule != [] {
      assert schedule[0] in schedule && forall a :: a in schedule[1..] ==> a in schedule;
      ScheduleIsFollowed(mine, Apply(s, schedule[0]), schedule[1..], t);
    }
    FollowedEntirely(Thread(mine), s, schedule);
    TraceOne(Thread(mine), s, Pause(schedule));
    WalkIsPath(mine, s, schedule, t);
  }

  /** A step of the schedule commits this row. */
  predicate Commits(schedule: seq<Action>, row: Row)
  {
    exists k :: 0 <= k < |schedule| &&
      schedule[k].PersistCommit? && schedule[k].id == row.id && schedule[k].createdAt == row.createdAt
  }

  /** Each new row has been committed by a step of the schedule. */
  predicate CommittedBy(before: seq<Row>, after: seq<Row>, schedule: seq<Action>)
  {
    before <= after && forall i :: |before| <= i < |after| ==> Commits(schedule, after[i])
  }

  lemma CommitsWithin(row: Row, acts: seq<Action>, schedule: seq<Action>)
    requires Commits(acts, row) && forall a :: a in acts && a.PersistCommit? ==> a in schedule
    ensures Commits(schedule, row)
  {
    var k :| 0 <= k < |acts| && acts[k].PersistCommit? && acts[k].id == row.id && acts[k].createdAt == row.createdAt;
    assert acts[k] in schedule;
  }

  lemma {:induction false} RowsOfPath(s: Process, acts: seq<Action>, t: Process)
    requires Path(s, acts, t)
    ensures CommittedBy(s.db.messages, t.db.messages, acts)
    decreases |acts|
  {
    if acts != [] {
      var mid := Apply(s, acts[0]);
      RowsOfPath(mid, acts[1..], t);
      forall i | |s.db.messages| <= i < |t.db.messages| ensures Commits(acts, t.db.messages[i]) {
        if i < |mid.db.messages| {
          assert t.db.messages[i] == mid.db.messages[i];
          assert acts[0].PersistCommit? && acts[0].id == t.db.messages[i].id;
        } else {
          CommitsWithin(t.db.messages[i], acts[1..], acts);
        }
      }
    }
  }

  /** pgMessagePersist up to its COMMIT, as persist k of the process. */
  function BeginProgram(k: nat, message: string, exchange: string, staged: bool,
                        first: seq<Action>, second: seq<Action>): Program
  {
    [Step(PersistCall(message, exchange))] + [Pause(first)]
    + if staged then [Step(PersistInsert(k))] + [Pause(second)] else []
  }

  lemma BeginCommitsNothing(k: nat, message: string, exchange: string, staged: bool,
                            first: seq<Action>, second: seq<Action>)
    ensures var program := BeginProgram(k, message, exchange, staged, first, second);
      && Plain(program) && (forall a :: a in OwnSteps(program) ==> !a.PersistCommit?)
      && forall a :: a in Scheduled(program) ==> a in first + second
  {
    var call: Program := [] + [Step(PersistCall(message, exchange))];
    var insert: Program := [Step(PersistInsert(k))];
    AddStep<Process, Action>([], PersistCall(message, exchange));
    AddPause(call, first);
    AddStep(call + [Pause(first)], PersistInsert(k));
    AddPause(call + [Pause(first)] + insert, second);
    Regroup(call + [Pause(first)], insert, [Pause(second)]);
    assert call == [Step(PersistCall(message, exchange))];
    assert call + [Pause(first)] + [] == call + [Pause(first)];
  }

  /** If pgMessagePersist has been executed up to its COMMIT, all new rows have been committed by the others. */
  lemma PersistRows(k: nat, message: string, exchange: string, staged: bool, first: seq<Action>, second: seq<Action>,
                    s: Process, t: Process)
    requires Does(Thread(MyPersist(k)), s, BeginProgram(k, message, exchange, staged, first, second), t)
    ensures CommittedBy(s.db.messages, t.db.messages, first + second)
  {
    var program := BeginProgram(k, message, exchange, staged, first, second);
    var trace := Trace(Thread(MyPersist(k)), s, program);
    BeginCommitsNothing(k, message, exchange, staged, first, second);
    DoesIsPath(MyPersist(k), s, program, t);
    RowsOfPath(s, trace, t);
    TraceMembers(Thread(MyPersist(k)), s, program);
    forall i | |s.db.messages| <= i < |t.db.messages| ensures Commits(first + second, t.db.messages[i]) {
      CommitsWithin(t.db.messages[i], trace, first + second);
    }
  }

  /** A call of pgMessageQuery from its push on, for job j. */
  function SubmitProgram(j: nat, exchange: string, notify: Action, first: seq<Action>, second: seq<Action>): Program
  {
    [Step(QueryAccepted(exchange))] + [Pause(first)] + [Step(notify)] + [Pause(second)] + [Step(QueryReturns(j))]
  }

  lemma SubmitSteps(j: nat, exchange: string, notify: Action, first: seq<Action>, second: seq<Action>)
    ensures var program := SubmitProgram(j, exchange, notify, first, second);
      && Plain(program) && Scheduled(program) == first + second
      && OwnSteps(program) == [QueryAccepted(exchange)] + [notify] + [QueryReturns(j)]
  {
    var p: Program := [] + [Step(QueryAccepted(exchange))];
    AddStep<Process, Action>([], QueryAccepted(exchange));
    AddPause(p, first);
    AddStep(p + [Pause(first)], notify);
    AddPause(p + [Pause(first)] + [Step(notify)], second);
    AddStep(p + [Pause(first)] + [Step(notify)] + [Pause(second)], QueryReturns(j));
    assert p == [Step(QueryAccepted(exchange))];
  }

  function AcceptWeight(a: Action): nat { if a.QueryAccepted? then 1 else 0 }

  lemma {:induction false} JobsOfPath(s: Process, acts: seq<Action>, t: Process)
    requires Path(s, acts, t)
    ensures |t.jobs| == |s.jobs| + Sum(acts, AcceptWeight)
    decreases |acts|
  {
    if acts != [] {
      SumHead(acts, AcceptWeight);
      JobsOfPath(Apply(s, acts[0]), acts[1..], t);
    }
  }

  /** One call of pgMessageQuery submits one job: the others account for all jobs but one. */
  lemma OneJobPerCall(j: nat, exchange: string, notify: Action, first: seq<Action>, second: seq<Action>,
                      s: Process, t: Process)
    requires Does(Thread(MySubmission(j)), s, SubmitProgram(j, exchange, notify, first, second), t)
    requires !notify.QueryAccepted?
    ensures |s.jobs| + 1 <= |t.jobs| <= |s.jobs| + 1 + Sum(first, AcceptWeight) + Sum(second, AcceptWeight)
  {
    var m, program := Thread(MySubmission(j)), SubmitProgram(j, exchange, notify, first, second);
    SubmitSteps(j, exchange, notify, first, second);
    DoesIsPath(MySubmission(j), s, program, t);
    JobsOfPath(s, Trace(m, s, program), t);
    TraceWeight(m, s, program, AcceptWeight);
    SumJoin(first, second, AcceptWeight);
    SumJoin([QueryAccepted(exchange)] + [notify], [QueryReturns(j)], AcceptWeight);
    SumJoin([QueryAccepted(exchange)], [notify], AcceptWeight);
    SumHead([QueryAccepted(exchange)], AcceptWeight);
    SumHead([notify], AcceptWeight);
    SumHead([QueryReturns(j)], AcceptWeight);
  }

  /** What has to happen before the callback lock is free. */
  function HolderLeaves(s: Process): seq<Action>
  {
    match s.lock
    case Free => []
    case HeldElsewhere => [ElsewhereUnlocks]
    case HeldByWorker(v) => [RunUnlock(v)]
  }

  /** The callback of worker w: it waits for the lock, takes it, calls back and releases it. */
  function CallbackProgram(w: nat, first: seq<Action>, second: seq<Action>): Program
  {
    [Pause(first)] + [Then(HolderLeaves)] + [Step(RunLock(w))] + [Pause(second)] + [Step(RunUnlock(w))]
  }

  /** queryExchange on worker w from its SELECT on. */
  function SelectProgram(w: nat, rows: seq<Row>, throws: bool, first: seq<Action>, second: seq<Action>): Program
  {
    [Step(RunSelect(w, rows))]
    + if throws then [Pause(first)] + [Step(RunThrow(w))] else CallbackProgram(w, first, second)
  }

  class PGClient {
    const mPool: TP.ThreadPool
    const work: array<Work>
    var tables: Tables
    var jobs: seq<Job>
    var log: seq<Outcome>
    var mMutex: Lock
    var persists: seq<Persist>
    const base: nat

    function View(): Process
      reads this, work, mPool, mPool.workers
    {
      Process(tables, base, mPool.View(), work[..], jobs, log, mMutex, persists)
    }

    constructor (tables: Tables)
      requires Schema(tables)
      ensures Valid() && View() == Start(tables, 5)
      ensures fresh(mPool) && fresh(mPool.workers) && fresh(work)
    {
      mPool := new TP.ThreadPool(5);
      work := new Work[5](_ => Idle);
      this.tables := tables;
      base := |tables.messages|;
      jobs, log, mMutex, persists := [], [], Free, [];
      new;
      assert work[..] == Start(tables, 5).work;
      assert Path(Start(tables, 5), [], View());
    }

    ghost predicate Valid()
      reads this, work, mPool, mPool.workers
    {
      mPool.Valid() && Reached(View())
    }

    /** The steps of the machine, on the fields. */
    method Do(a: Action)
      requires mPool.Valid() && Enabled(View(), a)
      modifies this, work, mPool, mPool.workers
      ensures mPool.Valid() && View() == Apply(old(View()), a)
    {
      if a.PersistCall? || a.PersistInsert? || a.PersistFails? || a.PersistCommit? {
        DoPersist(a);
      } else if a.QueryFails? || a.QueryAccepted? || a.NotifyOne? || a.NotifyNone? || a.QueryReturns? {
        DoSubmission(a);
      } else if a.RunSelect? || a.RunThrow? || a.RunLock? || a.RunUnlock? {
        DoWork(a);
      } else {
        DoBetween(a);
      }
    }

    method DoPersist(a: Action)
      requires mPool.Valid() && Enabled(View(), a)
      requires a.PersistCall? || a.PersistInsert? || a.PersistFails? || a.PersistCommit?
      modifies this
      ensures mPool.Valid() && View() == Apply(old(View()), a)
    {
      match a
      case PersistCall(message, name) => persists := persists + [Persist(message, name, Preparing)];
      case PersistInsert(k) =>
        persists := persists[k := persists[k].(stage := Staged(Column(tables.exchanges, persists[k].name).value))];
      case PersistFails(k) => persists := persists[k := persists[k].(stage := AnsweredError)];
      case PersistCommit(k, id, createdAt) =>
        var row := Row(id, persists[k].message, createdAt, persists[k].stage.exchange);
        persists := persists[k := persists[k].(stage := AnsweredSuccess(|tables.messages|))];
        tables := tables.(messages := tables.messages + [row]);
    }

    method DoSubmission(a: Action)
      requires mPool.Valid() && Enabled(View(), a)
      requires a.QueryFails? || a.QueryAccepted? || a.NotifyOne? || a.NotifyNone? || a.QueryReturns?
      modifies this, mPool, mPool.workers
      ensures mPool.Valid() && View() == Apply(old(View()), a)
    {
      match a
      case QueryFails(_) =>
      case QueryAccepted(name) =>
        var ok := mPool.Push(|jobs|);
        jobs := jobs + [Job(name, Resolve(tables.exchanges, name).value, |tables.messages|, Pushed)];
      case NotifyOne(j, w) =>
        mPool.Do(PM.NotifyOne(w));
        jobs := jobs[j := jobs[j].(submission := Notified)];
      case NotifyNone(j) =>
        mPool.Do(PM.NotifyNone);
        jobs := jobs[j := jobs[j].(submission := Notified)];
      case QueryReturns(j) => jobs := jobs[j := jobs[j].(submission := Returned(|tables.messages|))];
    }

    method DoWork(a: Action)
      requires mPool.Valid() && Enabled(View(), a)
      requires a.RunSelect? || a.RunThrow? || a.RunLock? || a.RunUnlock?
      modifies this, work, mPool, mPool.workers
      ensures mPool.Valid() && View() == Apply(old(View()), a)
    {
      match a
      case RunSelect(w, rows) => work[w] := Selected(|tables.messages|, rows);
      case RunThrow(w) =>
        work[w], log := Idle, log + [Failed(mPool.workers[w].task)];
        mPool.TaskReturns(w);
      case RunLock(w) =>
        mMutex := HeldByWorker(w);
        work[w] := InCallback(work[w].at, work[w].rows, |tables.messages|);
      case RunUnlock(w) =>
        mMutex := Free;
        log := log + [Delivered(mPool.workers[w].task, work[w].rows, work[w].at, work[w].begun)];
        work[w] := Idle;
        mPool.TaskReturns(w);
    }

    /** The steps of a worker between two jobs, and the callbacks of other clients. */
    method DoBetween(a: Action)
      requires mPool.Valid() && Enabled(View(), a)
      requires a.Spurious? || a.Section? || a.ElsewhereLocks? || a.ElsewhereUnlocks?
      modifies this, work, mPool, mPool.workers
      ensures mPool.Valid() && View() == Apply(old(View()), a)
    {
      match a
      case Spurious(w) => mPool.SpuriousWakeup(w);
      case Section(w) =>
        if mPool.tasks != [] {
          work[w] := Fetching;
        }
        mPool.WorkerSection(w);
      case ElsewhereLocks => mMutex := HeldElsewhere;
      case ElsewhereUnlocks => mMutex := Free;
    }

    /** One step of the executing thread. */
    method Take(a: Action, ghost mine: Mine)
      requires Valid() && Enabled(View(), a)
      modifies this, work, mPool, mPool.workers
      ensures Valid() && View() == Apply(old(View()), a) && Does(Thread(mine), old(View()), [Step(a)], View())
    {
      ghost var s := View();
      Do(a);
      OneStep(s, a, View());
      ReachedPath(s, [a], View());
      DoesStep(Thread(mine), s, a);
    }

    /** The turn of a step of another thread: it is taken if it can be. */
    method Offer(a: Action, mine: Mine)
      requires Valid()
      modifies this, work, mPool, mPool.workers
      ensures Valid() && Kept(old(View()), View(), mine) && Grows(old(View()), View())
      ensures View() ==
        if Enabled(old(View()), a) && !Touches(a, mine) then Apply(old(View()), a) else old(View())
    {
      if Enabled(View(), a) && !Touches(a, mine) {
        StepKeeps(View(), a, mine);
        StepGrows(View(), a);
        Take(a, mine);
      }
    }

    /** The other threads run along a schedule, as far as it can be executed, and leave alone what is mine. */
    method Others(schedule: seq<Action>, mine: Mine)
      requires Valid()
      modifies this, work, mPool, mPool.workers
      ensures Valid() && Does(Thread(mine), old(View()), [Pause(schedule)], View())
      ensures Kept(old(View()), View(), mine) && Grows(old(View()), View())
      ensures schedule == [] ==> View() == old(View())
    {
      ghost var s0 := View();
      ghost var ran: seq<Action> := [];
      FollowNone(Thread(mine), s0, schedule);
      for i := 0 to |schedule|
        invariant Valid() && Following(Thread(mine), s0, schedule, i, ran, View())
        invariant Kept(s0, View(), mine) && Grows(s0, View())
        invariant i == 0 ==> View() == s0
      {
        ghost var s := View();
        Offer(schedule[i], mine);
        ran := FollowOne(Thread(mine), s0, schedule, i, ran, s, View());
      }
      FollowAll(Thread(mine), s0, schedule, ran, View());
    }

    /** The connector calls that both operations start with: open, begin, and find the exchange if one is named. */
    method FindExchange(exchange: string, faults: set<Site>) returns (ok: bool)
      ensures ok <==>
        && OpenConnection !in faults && CreateTransaction !in faults
        && (exchange != "" ==>
             && QuoteName !in faults && SelectId !in faults && ResultIsEmpty !in faults && ResultGetFirst !in faults
             && Named(tables.exchanges, exchange))
    {
      if OpenConnection in faults || CreateTransaction in faults {
        return false;
      }
      if exchange != "" {
        if QuoteName in faults || SelectId in faults || ResultIsEmpty in faults {
          return false;
        }
        if Lookup(tables.exchanges, exchange) == Null {
          return false;
        }
        if ResultGetFirst in faults {
          return false;
        }
      }
      return true;
    }

    /** pgMessagePersist, with the other threads running between its call, its INSERT and its COMMIT. It answers
        PG_SUCCESS exactly if no connector call throws and the exchange is known, and then its row is the last one
        committed; every other new row has been committed by another thread. */
    method PgMessagePersist(message: string, exchange: string, faults: set<Site>, id: int, createdAt: int,
                            first: seq<Action>, second: seq<Action>)
      returns (ret: PGStatus, staged: bool)
      requires Valid()
      modifies this, work, mPool, mPool.workers
      ensures Valid()
      ensures staged <==>
        && OpenConnection !in faults && CreateTransaction !in faults && QuotePayload !in faults && Insert !in faults
        && (exchange != "" ==>
             && QuoteName !in faults && SelectId !in faults && ResultIsEmpty !in faults && ResultGetFirst !in faults
             && Named(tables.exchanges, exchange))
      ensures ret == PG_SUCCESS <==> staged && Commit !in faults
      ensures var k := |old(persists)|;
        Does(Thread(MyPersist(k)), old(View()),
             BeginProgram(k, message, exchange, staged, first, second)
             + [Step(if ret == PG_SUCCESS then PersistCommit(k, id, createdAt) else PersistFails(k))], View())
      ensures if ret == PG_ERROR then CommittedBy(old(tables).messages, tables.messages, first + second)
              else
                && Column(tables.exchanges, exchange) != Null && tables.messages != []
                && var seen := |tables.messages| - 1;
                && CommittedBy(old(tables).messages, tables.messages[..seen], first + second)
                && tables.messages[seen] == Row(id, message, createdAt, Column(tables.exchanges, exchange).value)
      ensures |old(persists)| < |persists| && persists[|old(persists)|] ==
        Persist(message, exchange, if ret == PG_SUCCESS then AnsweredSuccess(|tables.messages| - 1) else AnsweredError)
      ensures first == [] && second == [] ==> View() == old(View()).(
        db := tables.(messages := old(tables).messages +
          (if ret == PG_ERROR then [] else [Row(id, message, createdAt, Column(tables.exchanges, exchange).value)])),
        persists := old(persists) + [Persist(message, exchange,
          if ret == PG_ERROR then AnsweredError else AnsweredSuccess(|old(tables).messages|))])
    {
      ghost var s0, k := View(), |persists|;
      ghost var s;
      ret, staged, s := RunPersist(message, exchange, faults, id, createdAt, first, second);
      PersistRows(k, message, exchange, staged, first, second, s0, s);
      assert ret == PG_SUCCESS ==> tables.messages[..|tables.messages| - 1] == s.db.messages;
    }

    /** The same; s is the state before the answer. */
    method RunPersist(message: string, exchange: string, faults: set<Site>, id: int, createdAt: int,
                      first: seq<Action>, second: seq<Action>)
      returns (ret: PGStatus, staged: bool, ghost s: Process)
      requires Valid()
      modifies this, work, mPool, mPool.workers
      ensures Valid() && tables.exchanges == old(tables).exchanges
      ensures staged <==>
        && OpenConnection !in faults && CreateTransaction !in faults && QuotePayload !in faults && Insert !in faults
        && (exchange != "" ==>
             && QuoteName !in faults && SelectId !in faults && ResultIsEmpty !in faults && ResultGetFirst !in faults
             && Named(tables.exchanges, exchange))
      ensures ret == PG_SUCCESS <==> staged && Commit !in faults
      ensures ret == PG_SUCCESS ==> Column(tables.exchanges, exchange) != Null
      ensures var k := |old(persists)|;
        && Does(Thread(MyPersist(k)), old(View()), BeginProgram(k, message, exchange, staged, first, second), s)
        && Does(Thread(MyPersist(k)), old(View()), BeginProgram(k, message, exchange, staged, first, second)
             + [Step(if ret == PG_SUCCESS then PersistCommit(k, id, createdAt) else PersistFails(k))], View())
        && k < |s.persists| && s.persists[k].message == message && s.persists[k].name == exchange
        && View() == s.(
             db := s.db.(messages := s.db.messages +
               if ret == PG_ERROR then [] else [Row(id, message, createdAt, Column(tables.exchanges, exchange).value)]),
             persists := s.persists[k := s.persists[k].(
               stage := if ret == PG_ERROR then AnsweredError else AnsweredSuccess(|s.db.messages|))])
      ensures first == second == [] ==> s == old(View()).(persists := old(persists) + [
        Persist(message, exchange, if staged then Staged(Column(tables.exchanges, exchange).value) else Preparing)])
    {
      ghost var s0 := View();
      var k := |persists|;
      staged := BeginPersist(message, exchange, faults, first, second);
      s := View();
      ghost var answer;
      ret, answer := AnswerPersist(k, staged && Commit !in faults, id, createdAt);
      DoesBoth(Thread(MyPersist(k)), s0, BeginProgram(k, message, exchange, staged, first, second),
               s, [Step(answer)], View());
    }

    /** The COMMIT of persist k, or the exception that ends it. */
    method AnswerPersist(k: nat, commits: bool, id: int, createdAt: int) returns (ret: PGStatus, ghost answer: Action)
      requires Valid() && Unanswered(View(), k) && (commits ==> persists[k].stage.Staged?)
      modifies this, work, mPool, mPool.workers
      ensures Valid() && (ret == PG_SUCCESS <==> commits)
      ensures answer == (if ret == PG_SUCCESS then PersistCommit(k, id, createdAt) else PersistFails(k))
      ensures Does(Thread(MyPersist(k)), old(View()), [Step(answer)], View())
      ensures View() == old(View()).(
        db := tables,
        persists := old(persists)[k := old(persists)[k].(
          stage := if ret == PG_SUCCESS then AnsweredSuccess(|old(tables).messages|) else AnsweredError)])
      ensures tables == old(tables).(messages := old(tables).messages +
        if ret == PG_ERROR then [] else [Row(id, old(persists)[k].message, createdAt, old(persists)[k].stage.exchange)])
    {
      if commits {
        ret, answer := PG_SUCCESS, PersistCommit(k, id, createdAt);
        Take(PersistCommit(k, id, createdAt), MyPersist(k));
      } else {
        ret, answer := PG_ERROR, PersistFails(k);
        Take(PersistFails(k), MyPersist(k));
      }
    }

    /** pgMessagePersist up to its COMMIT. */
    method BeginPersist(message: string, exchange: string, faults: set<Site>, first: seq<Action>, second: seq<Action>)
      returns (staged: bool)
      requires Valid()
      modifies this, work, mPool, mPool.workers
      ensures Valid() && tables.exchanges == old(tables).exchanges
      ensures staged <==>
        && OpenConnection !in faults && CreateTransaction !in faults && QuotePayload !in faults && Insert !in faults
        && (exchange != "" ==>
             && QuoteName !in faults && SelectId !in faults && ResultIsEmpty !in faults && ResultGetFirst !in faults
             && Named(tables.exchanges, exchange))
      ensures staged ==> Column(tables.exchanges, exchange) != Null
      ensures var k := |old(persists)|;
        && Does(Thread(MyPersist(k)), old(View()), BeginProgram(k, message, exchange, staged, first, second), View())
        && k < |persists| && persists[k] == Persist(message, exchange,
             if staged then Staged(Column(tables.exchanges, exchange).value) else Preparing)
      ensures first == [] && second == [] ==> View() == old(View()).(persists := old(persists) + [
        Persist(message, exchange, if staged then Staged(Column(tables.exchanges, exchange).value) else Preparing)])
    {
      ghost var s0 := View();
      var k := |persists|;
      CallPersist(message, exchange, first);
      ghost var begin: Program := [Step(PersistCall(message, exchange))] + [Pause(first)];
      assert begin + [] == begin;
      var found := FindExchange(exchange, faults);
      staged := found && QuotePayload !in faults && Insert !in faults;
      if staged {
        ghost var s2 := View();
        InsertRow(k, second);
        DoesBoth(Thread(MyPersist(k)), s0, begin, s2, [Step(PersistInsert(k))] + [Pause(second)], View());
      }
    }

    /** The call of pgMessagePersist, and the other threads during its connector calls. */
    method CallPersist(message: string, exchange: string, schedule: seq<Action>)
      requires Valid()
      modifies this, work, mPool, mPool.workers
      ensures Valid() && tables.exchanges == old(tables).exchanges
      ensures var k := |old(persists)|;
        && Does(Thread(MyPersist(k)), old(View()), [Step(PersistCall(message, exchange))] + [Pause(schedule)], View())
        && k < |persists| && persists[k] == Persist(message, exchange, Preparing)
      ensures schedule == [] ==>
        View() == old(View()).(persists := old(persists) + [Persist(message, exchange, Preparing)])
    {
      ghost var s0 := View();
      var k := |persists|;
      Take(PersistCall(message, exchange), MyPersist(k));
      ghost var s1 := View();
      Others(schedule, MyPersist(k));
      DoesBoth(Thread(MyPersist(k)), s0, [Step(PersistCall(message, exchange))], s1, [Pause(schedule)], View());
    }

    /** The INSERT of persist k, and the other threads until its COMMIT. */
    method InsertRow(k: nat, schedule: seq<Action>)
      requires Valid()
      requires k < |persists| && persists[k].stage == Preparing && Column(tables.exchanges, persists[k].name) != Null
      modifies this, work, mPool, mPool.workers
      ensures Valid() && tables.exchanges == old(tables).exchanges
      ensures Does(Thread(MyPersist(k)), old(View()), [Step(PersistInsert(k))] + [Pause(schedule)], View())
      ensures k < |persists|
      ensures persists[k] == old(persists)[k].(stage := Staged(Column(tables.exchanges, old(persists)[k].name).value))
      ensures schedule == [] ==> View() == old(View()).(persists := old(persists)[k := persists[k]])
    {
      ghost var s0 := View();
      Take(PersistInsert(k), MyPersist(k));
      ghost var s1 := View();
      Others(schedule, MyPersist(k));
      DoesBoth(Thread(MyPersist(k)), s0, [Step(PersistInsert(k))], s1, [Pause(schedule)], View());
    }

    /** pgMessageQuery, with the other threads running between its connector calls, its push, its notification and its
        return; mid is the state in which the connector calls have been made. It answers PG_SUCCESS exactly if no
        connector call throws and the exchange is known or empty, and then it submits one job, j; otherwise only the
        other threads change anything. */
    method PgMessageQuery(exchange: string, faults: set<Site>,
                          before: seq<Action>, first: seq<Action>, second: seq<Action>)
      returns (ret: PGStatus, j: nat, ghost mid: Process, ghost notify: Action)
      requires Valid()
      modifies this, work, mPool, mPool.workers
      ensures Valid()
      ensures ret == PG_SUCCESS <==>
        && OpenConnection !in faults && CreateTransaction !in faults
        && (exchange != "" ==>
             && QuoteName !in faults && SelectId !in faults && ResultIsEmpty !in faults && ResultGetFirst !in faults
             && Named(tables.exchanges, exchange))
      ensures Does(Thread(Nothing), old(View()), [Pause(before)], mid) && j == |mid.jobs| && |old(jobs)| <= j
      ensures ret == PG_ERROR ==> Does(Thread(Nothing), mid, [Step(QueryFails(exchange))], View()) && View() == mid
      ensures ret == PG_SUCCESS ==>
        && (notify == NotifyNone(j) || (notify.NotifyOne? && notify.job == j))
        && Does(Thread(MySubmission(j)), mid, SubmitProgram(j, exchange, notify, first, second), View())
        && j < |jobs| && jobs[j].name == exchange && jobs[j].acceptedAt == |mid.db.messages|
        && |old(tables).messages| <= jobs[j].acceptedAt
        && jobs[j].submission == Returned(|tables.messages|)
      ensures before == [] ==> mid == old(View())
      ensures before == first == second == [] && ret == PG_SUCCESS ==>
        && Resolve(tables.exchanges, exchange) != Null && tables == old(tables) && log == old(log)
        && jobs == old(jobs) + [Job(exchange, Resolve(tables.exchanges, exchange).value, |tables.messages|,
                                    Returned(|tables.messages|))]
        && mPool.accepted == old(mPool.accepted) + [j] && mPool.tasks == old(mPool.tasks) + [j]
        && mPool.notifies == old(mPool.notifies)
    {
      ghost var s0 := View();
      var found := FindExchange(exchange, faults);
      Others(before, Nothing);
      mid := View();
      j := |jobs|;
      notify := NotifyNone(j);
      if found {
        ret := PG_SUCCESS;
        LivePool(View());
        notify := Submit(exchange, first, second);
      } else {
        ret := PG_ERROR;
        Take(QueryFails(exchange), Nothing);
      }
    }

    /** enqueue, as pgMessageQuery executes it, and the return of the call. */
    method Submit(exchange: string, first: seq<Action>, second: seq<Action>) returns (ghost notify: Action)
      requires Valid() && mPool.phase == PM.Open && Resolve(tables.exchanges, exchange) != Null
      modifies this, work, mPool, mPool.workers
      ensures Valid() && tables.exchanges == old(tables).exchanges
      ensures var j := |old(jobs)|;
        && (notify == NotifyNone(j) || (notify.NotifyOne? && notify.job == j))
        && Does(Thread(MySubmission(j)), old(View()), SubmitProgram(j, exchange, notify, first, second), View())
        && j < |jobs| && jobs[j] == Job(exchange, Resolve(tables.exchanges, exchange).value, |old(tables).messages|,
                                        Returned(|tables.messages|))
      ensures first == second == [] ==>
        && tables == old(tables) && log == old(log) && jobs == old(jobs) + [jobs[|old(jobs)|]]
        && mPool.accepted == old(mPool.accepted) + [|old(jobs)|] && mPool.tasks == old(mPool.tasks) + [|old(jobs)|]
        && mPool.notifies == old(mPool.notifies)
    {
      ghost var s0 := View();
      var j := |jobs|;
      ghost var accept := QueryAccepted(exchange);
      PushJob(exchange, first);
      ghost var s2 := View();
      notify := NotifyAndReturn(j, second);
      DoesBoth(Thread(MySubmission(j)), s0, [Step(accept)] + [Pause(first)],
               s2, [Step(notify)] + [Pause(second)] + [Step(QueryReturns(j))], View());
      assert SubmitProgram(j, exchange, notify, first, second) ==
        [Step(accept)] + [Pause(first)] + ([Step(notify)] + [Pause(second)] + [Step(QueryReturns(j))]);
    }

    /** The push of the job, and the other threads until its notification. */
    method PushJob(exchange: string, schedule: seq<Action>)
      requires Valid() && mPool.phase == PM.Open && Resolve(tables.exchanges, exchange) != Null
      modifies this, work, mPool, mPool.workers
      ensures Valid() && tables.exchanges == old(tables).exchanges
      ensures var j := |old(jobs)|;
        && Does(Thread(MySubmission(j)), old(View()), [Step(QueryAccepted(exchange))] + [Pause(schedule)], View())
        && j < |jobs|
        && jobs[j] == Job(exchange, Resolve(tables.exchanges, exchange).value, |old(tables).messages|, Pushed)
      ensures schedule == [] ==>
        && tables == old(tables) && log == old(log) && jobs == old(jobs) + [jobs[|old(jobs)|]]
        && mPool.accepted == old(mPool.accepted) + [|old(jobs)|] && mPool.tasks == old(mPool.tasks) + [|old(jobs)|]
        && mPool.notifies == old(mPool.notifies) + 1
    {
      ghost var s0 := View();
      var j := |jobs|;
      Take(QueryAccepted(exchange), MySubmission(j));
      ghost var s1 := View();
      Others(schedule, MySubmission(j));
      DoesBoth(Thread(MySubmission(j)), s0, [Step(QueryAccepted(exchange))], s1, [Pause(schedule)], View());
    }

    /** notify_one, called for job j, and the return of the call. */
    method NotifyAndReturn(j: nat, schedule: seq<Action>) returns (ghost notify: Action)
      requires Valid() && JobAt(View(), j, Pushed)
      modifies this, work, mPool, mPool.workers
      ensures Valid() && tables.exchanges == old(tables).exchanges
      ensures notify == NotifyNone(j) || (notify.NotifyOne? && notify.job == j)
      ensures Does(Thread(MySubmission(j)), old(View()), [Step(notify)] + [Pause(schedule)] + [Step(QueryReturns(j))],
        View())
      ensures j < |jobs| && jobs[j] == old(jobs)[j].(submission := Returned(|tables.messages|))
      ensures schedule == [] ==>
        && tables == old(tables) && log == old(log) && jobs == old(jobs)[j := jobs[j]]
        && mPool.accepted == old(mPool.accepted) && mPool.tasks == old(mPool.tasks)
        && mPool.notifies + 1 == old(mPool.notifies)
    {
      ghost var s0 := View();
      notify := NotifySubmission(j);
      ghost var s1 := View();
      ReturnFromCall(j, schedule);
      DoesBoth(Thread(MySubmission(j)), s0, [Step(notify)], s1, [Pause(schedule)] + [Step(QueryReturns(j))], View());
      ghost var rest: Program := [Pause(schedule)] + [Step(QueryReturns(j))];
      assert [Step(notify)] + rest == [Step(notify)] + [Pause(schedule)] + [Step(QueryReturns(j))];
    }

    /** The return of the call that has submitted job j. */
    method ReturnFromCall(j: nat, schedule: seq<Action>)
      requires Valid() && JobAt(View(), j, Notified)
      modifies this, work, mPool, mPool.workers
      ensures Valid() && tables.exchanges == old(tables).exchanges
      ensures Does(Thread(MySubmission(j)), old(View()), [Pause(schedule)] + [Step(QueryReturns(j))], View())
      ensures j < |jobs| && jobs[j] == old(jobs)[j].(submission := Returned(|tables.messages|))
      ensures schedule == [] ==>
        && tables == old(tables) && log == old(log) && jobs == old(jobs)[j := jobs[j]]
        && mPool.accepted == old(mPool.accepted) && mPool.tasks == old(mPool.tasks)
        && mPool.notifies == old(mPool.notifies)
    {
      ghost var s0 := View();
      Others(schedule, MySubmission(j));
      ghost var s1 := View();
      Take(QueryReturns(j), MySubmission(j));
      DoesBoth(Thread(MySubmission(j)), s0, [Pause(schedule)], s1, [Step(QueryReturns(j))], View());
    }

    /** notify_one, called for job j. */
    method NotifySubmission(j: nat) returns (notify: Action)
      requires Valid() && JobAt(View(), j, Pushed)
      modifies this, work, mPool, mPool.workers
      ensures Valid() && Does(Thread(MySubmission(j)), old(View()), [Step(notify)], View())
      ensures notify == NotifyNone(j) || (notify.NotifyOne? && notify.job == j)
      ensures tables == old(tables) && log == old(log)
      ensures jobs == old(jobs)[j := old(jobs)[j].(submission := Notified)]
      ensures mPool.accepted == old(mPool.accepted) && mPool.tasks == old(mPool.tasks)
      ensures mPool.notifies + 1 == old(mPool.notifies)
    {
      NotifyPending(View(), j);
      notify := NotifyNone(j);
      if w: nat :| w < mPool.workers.Length && mPool.workers[w].Parked? {
        notify := NotifyOne(j, w);
      }
      Take(notify, MySubmission(j));
    }

    /** queryExchange on worker w, with the other threads running before its SELECT, before its callback and during it;
        order is the order in which the server lists the rows of a result. The callback receives the rows that the
        SELECT finds, exactly if no connector call throws. */
    method QueryExchange(w: nat, faults: set<Site>, order: seq<Row> -> seq<Row>,
                         before: seq<Action>, first: seq<Action>, second: seq<Action>)
      returns (rows: seq<Row>)
      requires Valid() && RunningJob(View(), w) && work[w] == Fetching
      requires forall rows :: multiset(order(rows)) == multiset(rows)
      modifies this, work, mPool, mPool.workers
      ensures Valid() && w < work.Length && work[w] == Idle
      ensures Does(Thread(MyJob(w)), old(View()), [Pause(before)] +
        (if OpenConnection in faults || CreateTransaction in faults || PrepareIsolation in faults
            || ExecuteIsolation in faults || SelectRows in faults
         then [Step(RunThrow(w))] else SelectProgram(w, rows, ResultGetAll in faults, first, second)), View())
      ensures |log| > 0 && var last := log[|log| - 1];
        && last.job == old(mPool.workers[w].task) < |old(jobs)|
        && (last.Failed? <==>
             || OpenConnection in faults || CreateTransaction in faults || PrepareIsolation in faults
             || ExecuteIsolation in faults || SelectRows in faults || ResultGetAll in faults)
        && (last.Delivered? ==>
             && |old(tables).messages| <= last.at <= |tables.messages|
             && last.rows == rows == order(Select(tables.messages[..last.at], old(jobs)[last.job].filter)))
      ensures before == first == second == [] && old(mMutex) == Free ==>
        tables == old(tables) && jobs == old(jobs) && |log| == |old(log)| + 1 && mMutex == Free
    {
      var early := OpenConnection in faults || CreateTransaction in faults || PrepareIsolation in faults
        || ExecuteIsolation in faults || SelectRows in faults;
      rows := AwaitAndRun(w, early, ResultGetAll in faults, order, before, first, second);
    }

    /** queryExchange, with the other threads running before its first connector call. */
    method AwaitAndRun(w: nat, early: bool, late: bool, order: seq<Row> -> seq<Row>,
                       before: seq<Action>, first: seq<Action>, second: seq<Action>)
      returns (rows: seq<Row>)
      requires Valid() && RunningJob(View(), w) && work[w] == Fetching
      requires forall rows :: multiset(order(rows)) == multiset(rows)
      modifies this, work, mPool, mPool.workers
      ensures Valid() && w < work.Length && work[w] == Idle
      ensures Does(Thread(MyJob(w)), old(View()), [Pause(before)] +
        (if early then [Step(RunThrow(w))] else SelectProgram(w, rows, late, first, second)), View())
      ensures |log| > 0 && var last := log[|log| - 1];
        && last.job == old(mPool.workers[w].task) < |old(jobs)| && (last.Failed? <==> early || late)
        && (last.Delivered? ==>
             && |old(tables).messages| <= last.at <= |tables.messages|
             && last.rows == rows == order(Select(tables.messages[..last.at], old(jobs)[last.job].filter)))
      ensures before == first == second == [] && old(mMutex) == Free ==>
        tables == old(tables) && jobs == old(jobs) && |log| == |old(log)| + 1 && mMutex == Free
    {
      ghost var s0 := View();
      Others(before, MyJob(w));
      ghost var s1 := View();
      ghost var seen := tables.messages;
      rows := RunQuery(w, early, late, order, first, second);
      DoesBoth(Thread(MyJob(w)), s0, [Pause(before)], s1,
               if early then [Step(RunThrow(w))] else SelectProgram(w, rows, late, first, second), View());
      assert tables.messages[..|seen|] == seen;
    }

    /** queryExchange from its first connector call on: a call before the SELECT throws, or the SELECT does, or the
        reading of its result, or none. */
    method RunQuery(w: nat, early: bool, late: bool, order: seq<Row> -> seq<Row>,
                    first: seq<Action>, second: seq<Action>)
      returns (rows: seq<Row>)
      requires Valid() && RunningJob(View(), w) && work[w] == Fetching
      requires forall rows :: multiset(order(rows)) == multiset(rows)
      modifies this, work, mPool, mPool.workers
      ensures Valid() && Does(Thread(MyJob(w)), old(View()),
        if early then [Step(RunThrow(w))] else SelectProgram(w, rows, late, first, second), View())
      ensures work[w] == Idle && old(tables).messages <= tables.messages
      ensures |log| > 0 && var last := log[|log| - 1];
        && last.job == old(mPool.workers[w].task) && (last.Failed? <==> early || late)
        && (last.Delivered? ==>
             && last.at == |old(tables).messages|
             && last.rows == rows == order(Select(old(tables).messages, old(jobs)[last.job].filter)))
      ensures first == second == [] && old(mMutex) == Free ==>
        tables == old(tables) && jobs == old(jobs) && |log| == |old(log)| + 1 && mMutex == Free
    {
      if early {
        rows := [];
        Abandon(w);
      } else {
        rows := SelectAndCall(w, late, order, first, second);
      }
    }

    /** An exception ends the job of worker w. */
    method Abandon(w: nat)
      requires Valid() && RunningJob(View(), w) && (work[w].Fetching? || work[w].Selected?)
      modifies this, work, mPool, mPool.workers
      ensures Valid() && Does(Thread(MyJob(w)), old(View()), [Step(RunThrow(w))], View())
      ensures work[w] == Idle && tables == old(tables) && jobs == old(jobs) && mMutex == old(mMutex)
      ensures log == old(log) + [Failed(old(mPool.workers[w].task))]
    {
      Take(RunThrow(w), MyJob(w));
    }

    /** queryExchange from its SELECT on. */
    method SelectAndCall(w: nat, throws: bool, order: seq<Row> -> seq<Row>, first: seq<Action>, second: seq<Action>)
      returns (rows: seq<Row>)
      requires Valid() && RunningJob(View(), w) && work[w] == Fetching
      requires forall rows :: multiset(order(rows)) == multiset(rows)
      modifies this, work, mPool, mPool.workers
      ensures Valid() && Does(Thread(MyJob(w)), old(View()), SelectProgram(w, rows, throws, first, second), View())
      ensures work[w] == Idle && old(tables).messages <= tables.messages
      ensures rows == order(Select(old(tables).messages, old(jobs)[old(mPool.workers[w].task)].filter))
      ensures |log| > 0 && var last := log[|log| - 1];
        && last.job == old(mPool.workers[w].task) && (last.Failed? <==> throws)
        && (last.Delivered? ==> last.rows == rows && last.at == |old(tables).messages|)
      ensures first == second == [] && old(mMutex) == Free ==>
        tables == old(tables) && jobs == old(jobs) && |log| == |old(log)| + 1 && mMutex == Free
    {
      ghost var s0 := View();
      rows := SelectRowsOf(w, order);
      ghost var s1 := View();
      if throws {
        ThrowResult(w, first);
        DoesBoth(Thread(MyJob(w)), s0, [Step(RunSelect(w, rows))], s1, [Pause(first)] + [Step(RunThrow(w))], View());
      } else {
        CallBack(w, first, second);
        DoesBoth(Thread(MyJob(w)), s0, [Step(RunSelect(w, rows))], s1, CallbackProgram(w, first, second), View());
      }
    }

    /** The SELECT of worker w. */
    method SelectRowsOf(w: nat, order: seq<Row> -> seq<Row>) returns (rows: seq<Row>)
      requires Valid() && RunningJob(View(), w) && work[w] == Fetching
      requires forall rows :: multiset(order(rows)) == multiset(rows)
      modifies this, work, mPool, mPool.workers
      ensures Valid() && RunningJob(View(), w)
        && Does(Thread(MyJob(w)), old(View()), [Step(RunSelect(w, rows))], View())
      ensures tables == old(tables) && jobs == old(jobs) && log == old(log) && mMutex == old(mMutex)
      ensures mPool.workers[w] == old(mPool.workers[w])
      ensures rows == order(Select(tables.messages, jobs[mPool.workers[w].task].filter))
      ensures work[w] == Selected(|tables.messages|, rows)
    {
      rows := order(Select(tables.messages, jobs[mPool.workers[w].task].filter));
      Take(RunSelect(w, rows), MyJob(w));
    }

    /** The result cannot be read. */
    method ThrowResult(w: nat, schedule: seq<Action>)
      requires Valid() && RunningJob(View(), w) && work[w].Selected?
      modifies this, work, mPool, mPool.workers
      ensures Valid() && Does(Thread(MyJob(w)), old(View()), [Pause(schedule)] + [Step(RunThrow(w))], View())
      ensures work[w] == Idle && old(tables).messages <= tables.messages
      ensures |log| > 0 && log[|log| - 1] == Failed(old(mPool.workers[w].task))
      ensures schedule == [] ==>
        tables == old(tables) && jobs == old(jobs) && |log| == |old(log)| + 1 && mMutex == old(mMutex)
    {
      ghost var s0 := View();
      Others(schedule, MyJob(w));
      ghost var s1 := View();
      Abandon(w);
      DoesBoth(Thread(MyJob(w)), s0, [Pause(schedule)], s1, [Step(RunThrow(w))], View());
    }

    /** The callback of worker w, with its waiting for the lock. */
    method CallBack(w: nat, first: seq<Action>, second: seq<Action>)
      requires Valid() && RunningJob(View(), w) && work[w].Selected?
      modifies this, work, mPool, mPool.workers
      ensures Valid() && Does(Thread(MyJob(w)), old(View()), CallbackProgram(w, first, second), View())
      ensures work[w] == Idle && old(tables).messages <= tables.messages
      ensures |log| > 0 && var last := log[|log| - 1];
        && last.Delivered? && last.job == old(mPool.workers[w].task)
        && last.rows == old(work[w]).rows && last.at == old(work[w]).at
      ensures first == second == [] && old(mMutex) == Free ==>
        tables == old(tables) && jobs == old(jobs) && |log| == |old(log)| + 1 && mMutex == Free
    {
      ghost var s0 := View();
      EnterCallback(w, first);
      ghost var s1 := View();
      LeaveCallback(w, second);
      DoesBoth(Thread(MyJob(w)), s0, [Pause(first)] + [Then(HolderLeaves)] + [Step(RunLock(w))],
               s1, [Pause(second)] + [Step(RunUnlock(w))], View());
      assert CallbackProgram(w, first, second) ==
        [Pause(first)] + [Then(HolderLeaves)] + [Step(RunLock(w))] + ([Pause(second)] + [Step(RunUnlock(w))]);
    }

    /** Worker w waits for the callback lock, while the others may take and release it any number of times, and takes
        it. */
    method EnterCallback(w: nat, contention: seq<Action>)
      requires Valid() && RunningJob(View(), w) && work[w].Selected?
      modifies this, work, mPool, mPool.workers
      ensures Valid() && RunningJob(View(), w)
      ensures Does(Thread(MyJob(w)), old(View()), [Pause(contention)] + [Then(HolderLeaves)] + [Step(RunLock(w))],
        View())
      ensures old(tables).messages <= tables.messages && mPool.workers[w] == old(mPool.workers[w])
      ensures work[w] == InCallback(old(work[w]).at, old(work[w]).rows, |tables.messages|)
      ensures contention == [] && old(mMutex) == Free ==> tables == old(tables) && jobs == old(jobs) && log == old(log)
    {
      ghost var s0 := View();
      AwaitLock(w, contention);
      ghost var s1 := View();
      Take(RunLock(w), MyJob(w));
      DoesBoth(Thread(MyJob(w)), s0, [Pause(contention)] + [Then(HolderLeaves)], s1, [Step(RunLock(w))], View());
    }

    /** The callback of worker w runs while the other threads go on, and returns. */
    method LeaveCallback(w: nat, schedule: seq<Action>)
      requires Valid() && RunningJob(View(), w) && work[w].InCallback?
      modifies this, work, mPool, mPool.workers
      ensures Valid() && Does(Thread(MyJob(w)), old(View()), [Pause(schedule)] + [Step(RunUnlock(w))], View())
      ensures work[w] == Idle && old(tables).messages <= tables.messages && mMutex == Free
      ensures |log| > 0 && log[|log| - 1] ==
        Delivered(old(mPool.workers[w].task), old(work[w]).rows, old(work[w]).at, old(work[w]).begun)
      ensures schedule == [] ==> tables == old(tables) && jobs == old(jobs) && |log| == |old(log)| + 1
    {
      ghost var s0 := View();
      Others(schedule, MyJob(w));
      ghost var s1 := View();
      Take(RunUnlock(w), MyJob(w));
      DoesBoth(Thread(MyJob(w)), s0, [Pause(schedule)], s1, [Step(RunUnlock(w))], View());
    }

    /** The lock is contended along a schedule; if it is then still held, its holder leaves its callback, and nothing
        else happens. */
    method AwaitLock(w: nat, contention: seq<Action>)
      requires Valid() && RunningJob(View(), w) && work[w].Selected?
      modifies this, work, mPool, mPool.workers
      ensures Valid() && RunningJob(View(), w) && mMutex == Free
      ensures Does(Thread(MyJob(w)), old(View()), [Pause(contention)] + [Then(HolderLeaves)], View())
      ensures old(tables).messages <= tables.messages
      ensures work[w] == old(work[w]) && mPool.workers[w] == old(mPool.workers[w])
      ensures contention == [] && old(mMutex) == Free ==> View() == old(View())
    {
      ghost var s0 := View();
      Others(contention, MyJob(w));
      ghost var s1 := View();
      ReleaseLock(w);
      DoesBoth(Thread(MyJob(w)), s0, [Pause(contention)], s1, [Then(HolderLeaves)], View());
    }

    /** Whoever holds the callback lock leaves its callback. */
    method ReleaseLock(w: nat)
      requires Valid() && RunningJob(View(), w) && work[w].Selected?
      modifies this, work, mPool, mPool.workers
      ensures Valid() && RunningJob(View(), w) && mMutex == Free
      ensures Does(Thread(MyJob(w)), old(View()), [Then(HolderLeaves)], View())
      ensures tables == old(tables) && work[w] == old(work[w]) && mPool.workers[w] == old(mPool.workers[w])
      ensures old(mMutex) == Free ==> View() == old(View())
    {
      TraceOne(Thread(MyJob(w)), View(), Then(HolderLeaves));
      match mMutex {
        case Free =>
        case HeldElsewhere => Unlock(w, ElsewhereUnlocks);
        case HeldByWorker(v) =>
          HolderRuns(View());
          Unlock(w, RunUnlock(v));
      }
    }

    /** Another thread releases the lock. */
    method Unlock(w: nat, a: Action)
      requires Valid() && RunningJob(View(), w) && work[w].Selected? && Enabled(View(), a)
      requires HolderLeaves(View()) == [a]
      modifies this, work, mPool, mPool.workers
      ensures Valid() && RunningJob(View(), w) && mMutex == Free && Walk(Thread(MyJob(w)), old(View()), [a]) == View()
      ensures CanWalk(Thread(MyJob(w)), old(View()), [a])
      ensures tables == old(tables) && work[w] == old(work[w]) && mPool.workers[w] == old(mPool.workers[w])
    {
      ghost var s := View();
      Take(a, MyJob(w));
      TraceOne(Thread(MyJob(w)), s, Step(a));
    }
  }
}
