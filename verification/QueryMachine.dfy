/** A process with one live PGClient: persists and queries on shared tables, query jobs on its pool, and the
    process-wide callback lock, which other clients may hold too.

    A call of pgMessageQuery pushes a job and returns later; the job selects, takes the lock, calls back and
    releases the lock. Persists of any client commit in between. Every step is atomic, any interleaving is a run. */
module QueryMachine {
  import opened Database
  import opened Sums
  import PM = PoolMachine

  /** Where the call of pgMessageQuery that submitted a job is; at is the table length when it returned PG_SUCCESS. */
  datatype Submission = Pushed | Notified | Returned(at: nat)

  datatype Job = Job(name: string, filter: int, acceptedAt: nat, submission: Submission)

  /** What a worker is doing in queryExchange; at and begun are table lengths. */
  datatype Work =
    | Idle
    | Fetching
    | Selected(at: nat, rows: seq<Row>)
    | InCallback(at: nat, rows: seq<Row>, begun: nat)

  /** How a job ended. */
  datatype Outcome = Failed(job: nat) | Delivered(job: nat, rows: seq<Row>, at: nat, begun: nat)

  datatype PersistStage = Preparing | Staged(exchange: Nullable<int>) | AnsweredError | AnsweredSuccess(at: nat)

  datatype Persist = Persist(message: string, name: string, stage: PersistStage)

  datatype Lock = Free | HeldByWorker(w: nat) | HeldElsewhere

  datatype Process = Process(
    db: Tables,
    base: nat,
    pool: PM.Pool,
    work: seq<Work>,
    jobs: seq<Job>,
    log: seq<Outcome>,
    lock: Lock,
    persists: seq<Persist>)

  function Start(db: Tables, workers: nat): Process
  {
    Process(db, |db.messages|, PM.Init(workers), seq(workers, _ => Idle), [], [], Free, [])
  }

  /** The filter that pgMessageQuery resolves a name to, if the name is known. */
  function Resolve(exchanges: seq<Exchange>, name: string): Nullable<int>
  {
    if name == "" then Just(NO_FILTER) else Lookup(exchanges, name)
  }

  /** The exchange column that pgMessagePersist writes, if the name is known. */
  function Column(exchanges: seq<Exchange>, name: string): Nullable<Nullable<int>>
  {
    if name == "" then Just(Null) else match Lookup(exchanges, name) case Null => Null case Just(id) => Just(Just(id))
  }

  datatype Action =
    | QueryFails(name: string)              // a connector call throws, or the exchange is unknown: PG_ERROR
    | QueryAccepted(name: string)           // the pool accepts the job
    | NotifyOne(job: nat, w: nat)
    | NotifyNone(job: nat)
    | QueryReturns(job: nat)                // PG_SUCCESS
    | Spurious(w: nat)
    | Section(w: nat)
    | RunSelect(w: nat, rows: seq<Row>)     // the SELECT of the job; the server picks the order of the rows
    | RunThrow(w: nat)                      // a connector call of the job throws
    | RunLock(w: nat)                       // the callback begins
    | RunUnlock(w: nat)                     // the callback has returned
    | ElsewhereLocks                        // a job of another client enters its callback
    | ElsewhereUnlocks
    | PersistCall(message: string, name: string)
    | PersistInsert(k: nat)                 // the exchange is resolved and the row inserted, not yet committed
    | PersistFails(k: nat)                  // a connector call throws, or the exchange is unknown: PG_ERROR
    | PersistCommit(k: nat, id: int, createdAt: int) // PG_SUCCESS

  predicate RunningJob(s: Process, w: nat)
  {
    && w < |s.work| && w < |s.pool.workers|
    && s.pool.workers[w].Running? && s.pool.workers[w].task < |s.jobs|
  }

  predicate JobAt(s: Process, j: nat, submission: Submission)
  {
    j < |s.jobs| && s.jobs[j].submission == submission
  }

  predicate Unanswered(s: Process, k: nat)
  {
    k < |s.persists| && (s.persists[k].stage.Preparing? || s.persists[k].stage.Staged?)
  }

  predicate Enabled(s: Process, a: Action)
  {
    match a
    case QueryFails(_) => true
    case QueryAccepted(name) => Resolve(s.db.exchanges, name) != Null && PM.Enabled(s.pool, PM.Enqueue(|s.jobs|))
    case NotifyOne(j, w) => JobAt(s, j, Pushed) && PM.Enabled(s.pool, PM.NotifyOne(w))
    case NotifyNone(j) => JobAt(s, j, Pushed) && PM.Enabled(s.pool, PM.NotifyNone)
    case QueryReturns(j) => JobAt(s, j, Notified)
    case Spurious(w) => PM.Enabled(s.pool, PM.Spurious(w))
    case Section(w) => PM.Enabled(s.pool, PM.Section(w)) && w < |s.work|
    case RunSelect(w, rows) =>
      && RunningJob(s, w) && s.work[w] == Fetching
      && multiset(rows) == multiset(Select(s.db.messages, s.jobs[s.pool.workers[w].task].filter))
    case RunThrow(w) => RunningJob(s, w) && (s.work[w].Fetching? || s.work[w].Selected?)
    case RunLock(w) => RunningJob(s, w) && s.work[w].Selected? && s.lock == Free
    case RunUnlock(w) => RunningJob(s, w) && s.work[w].InCallback?
    case ElsewhereLocks => s.lock == Free
    case ElsewhereUnlocks => s.lock == HeldElsewhere
    case PersistCall(_, _) => true
    case PersistInsert(k) =>
      k < |s.persists| && s.persists[k].stage == Preparing && Column(s.db.exchanges, s.persists[k].name) != Null
    case PersistFails(k) => Unanswered(s, k)
    case PersistCommit(k, _, _) => k < |s.persists| && s.persists[k].stage.Staged?
  }

  function SetWork(s: Process, w: nat, work: Work): Process
    requires w < |s.work|
  {
    s.(work := s.work[w := work])
  }

  function SetStage(s: Process, k: nat, stage: PersistStage): Process
    requires k < |s.persists|
  {
    s.(persists := s.persists[k := s.persists[k].(stage := stage)])
  }

  function SetSubmission(s: Process, j: nat, submission: Submission): Process
    requires j < |s.jobs|
  {
    s.(jobs := s.jobs[j := s.jobs[j].(submission := submission)])
  }

  /** The job of worker w ends with the given outcome. */
  function EndJob(s: Process, w: nat, outcome: Outcome): Process
    requires RunningJob(s, w)
  {
    SetWork(s, w, Idle).(pool := PM.Apply(s.pool, PM.Finish(w)), log := s.log + [outcome])
  }

  function Apply(s: Process, a: Action): Process
    requires Enabled(s, a)
  {
    match a
    case QueryFails(_) => s
    case QueryAccepted(name) =>
      s.(pool := PM.Apply(s.pool, PM.Enqueue(|s.jobs|)),
         jobs := s.jobs + [Job(name, Resolve(s.db.exchanges, name).value, |s.db.messages|, Pushed)])
    case NotifyOne(j, w) => SetSubmission(s, j, Notified).(pool := PM.Apply(s.pool, PM.NotifyOne(w)))
    case NotifyNone(j) => SetSubmission(s, j, Notified).(pool := PM.Apply(s.pool, PM.NotifyNone))
    case QueryReturns(j) => SetSubmission(s, j, Returned(|s.db.messages|))
    case Spurious(w) => s.(pool := PM.Apply(s.pool, PM.Spurious(w)))
    case Section(w) =>
      var t := s.(pool := PM.Apply(s.pool, PM.Section(w)));
      if s.pool.queue == [] then t else SetWork(t, w, Fetching)
    case RunSelect(w, rows) => SetWork(s, w, Selected(|s.db.messages|, rows))
    case RunThrow(w) => EndJob(s, w, Failed(s.pool.workers[w].task))
    case RunLock(w) =>
      SetWork(s, w, InCallback(s.work[w].at, s.work[w].rows, |s.db.messages|)).(lock := HeldByWorker(w))
    case RunUnlock(w) =>
      EndJob(s, w, Delivered(s.pool.workers[w].task, s.work[w].rows, s.work[w].at, s.work[w].begun)).(lock := Free)
    case ElsewhereLocks => s.(lock := HeldElsewhere)
    case ElsewhereUnlocks => s.(lock := Free)
    case PersistCall(message, name) => s.(persists := s.persists + [Persist(message, name, Preparing)])
    case PersistInsert(k) => SetStage(s, k, Staged(Column(s.db.exchanges, s.persists[k].name).value))
    case PersistFails(k) => SetStage(s, k, AnsweredError)
    case PersistCommit(k, id, createdAt) =>
      var row := Row(id, s.persists[k].message, createdAt, s.persists[k].stage.exchange);
      SetStage(s, k, AnsweredSuccess(|s.db.messages|)).(db := s.db.(messages := s.db.messages + [row]))
  }

  predicate Path(s: Process, acts: seq<Action>, t: Process)
    decreases |acts|
  {
    if acts == [] then s == t else Enabled(s, acts[0]) && Path(Apply(s, acts[0]), acts[1..], t)
  }

  // ----- the invariant -----

  function PushedWeight(job: Job): nat { if job.submission.Pushed? then 1 else 0 }
  function ReturnedWeight(job: Job): nat { if job.submission.Returned? then 1 else 0 }
  function SuccessWeight(p: Persist): nat { if p.stage.AnsweredSuccess? then 1 else 0 }
  function DeliveredWeight(o: Outcome): nat { if o.Delivered? then 1 else 0 }
  function FailedWeight(o: Outcome): nat { if o.Failed? then 1 else 0 }

  /** rows, in some order, is the answer to the query of job j on the first at messages. */
  predicate Snapshot(s: Process, j: nat, rows: seq<Row>, at: nat)
  {
    && j < |s.jobs| && s.jobs[j].acceptedAt <= at <= |s.db.messages|
    && multiset(rows) == multiset(Select(s.db.messages[..at], s.jobs[j].filter))
  }

  /** The pool runs, and its tasks are the numbers of the jobs, in order of submission. */
  predicate PoolOfJobs(s: Process)
  {
    && s.pool.phase == PM.Open
    && |s.work| == |s.pool.workers|
    && |s.pool.accepted| == |s.jobs| && (forall k :: 0 <= k < |s.jobs| ==> s.pool.accepted[k] == k)
    && s.pool.notifies == Sum(s.jobs, PushedWeight)
    && |s.log| == |s.pool.finished| && (forall k :: 0 <= k < |s.log| ==> s.log[k].job == s.pool.finished[k])
  }

  predicate Jobs(s: Process)
  {
    forall j :: 0 <= j < |s.jobs| ==>
      && Just(s.jobs[j].filter) == Resolve(s.db.exchanges, s.jobs[j].name)
      && s.jobs[j].acceptedAt <= |s.db.messages|
      && (s.jobs[j].submission.Returned? ==> s.jobs[j].acceptedAt <= s.jobs[j].submission.at <= |s.db.messages|)
  }

  predicate WorkOf(s: Process, w: nat)
    requires w < |s.work| && w < |s.pool.workers|
  {
    match s.work[w]
    case Idle => !s.pool.workers[w].Running?
    case Fetching => RunningJob(s, w)
    case Selected(at, rows) => RunningJob(s, w) && Snapshot(s, s.pool.workers[w].task, rows, at)
    case InCallback(at, rows, begun) =>
      RunningJob(s, w) && Snapshot(s, s.pool.workers[w].task, rows, at) && at <= begun <= |s.db.messages|
  }

  predicate Works(s: Process)
  {
    |s.work| == |s.pool.workers| && forall w :: 0 <= w < |s.work| ==> WorkOf(s, w)
  }

  predicate Logged(s: Process)
  {
    forall k :: 0 <= k < |s.log| && s.log[k].Delivered? ==>
      Snapshot(s, s.log[k].job, s.log[k].rows, s.log[k].at) && s.log[k].at <= s.log[k].begun <= |s.db.messages|
  }

  /** The callback lock is held by a worker exactly while it is in its callback. */
  predicate LockExact(s: Process)
  {
    && (s.lock.HeldByWorker? ==> s.lock.w < |s.work|)
    && forall w :: 0 <= w < |s.work| ==> (s.lock == HeldByWorker(w) <==> s.work[w].InCallback?)
  }

  /** What the stage of a persist says about the table: a successful one is a row of its own, with its payload and
      the exchange it named. */
  predicate PersistOf(s: Process, k: nat)
    requires k < |s.persists|
  {
    match s.persists[k].stage
    case Staged(exchange) => Column(s.db.exchanges, s.persists[k].name) == Just(exchange)
    case AnsweredSuccess(at) =>
      && s.base <= at < |s.db.messages|
      && s.db.messages[at].payload == s.persists[k].message
      && Column(s.db.exchanges, s.persists[k].name) == Just(s.db.messages[at].exchange)
    case _ => true
  }

  predicate OwnRows(persists: seq<Persist>)
  {
    forall k, m :: 0 <= k < m < |persists| && persists[k].stage.AnsweredSuccess? && persists[m].stage.AnsweredSuccess?
      ==> persists[k].stage.at != persists[m].stage.at
  }

  predicate Persisted(s: Process)
  {
    && (forall k :: 0 <= k < |s.persists| ==> PersistOf(s, k))
    && OwnRows(s.persists)
  }

  predicate RowsCounted(s: Process)
  {
    |s.db.messages| == s.base + Sum(s.persists, SuccessWeight)
  }

  predicate Inv(s: Process)
  {
    && PM.Inv(s.pool) && PoolOfJobs(s) && Jobs(s) && Works(s) && Logged(s) && LockExact(s) && Persisted(s)
      && RowsCounted(s)
    && Schema(s.db)
  }

  lemma StartInv(db: Tables, workers: nat)
    requires Schema(db)
    ensures Inv(Start(db, workers))
  {
    PM.InitInv(workers);
  }

  /** Snapshots of earlier tables stay what they were when the table grows. */
  lemma SnapshotKept(s: Process, t: Process, j: nat, rows: seq<Row>, at: nat)
    requires Snapshot(s, j, rows, at)
    requires s.db.messages <= t.db.messages && |s.jobs| <= |t.jobs|
    requires t.jobs[j].filter == s.jobs[j].filter && t.jobs[j].acceptedAt == s.jobs[j].acceptedAt
    ensures Snapshot(t, j, rows, at)
  {
    assert t.db.messages[..at] == s.db.messages[..at];
  }

  predicate Grows(s: Process, t: Process)
  {
    && s.db.messages <= t.db.messages && s.db.exchanges == t.db.exchanges && s.base == t.base
    && |s.jobs| <= |t.jobs|
    && (forall j :: 0 <= j < |s.jobs| ==>
         && t.jobs[j].name == s.jobs[j].name && t.jobs[j].filter == s.jobs[j].filter
         && t.jobs[j].acceptedAt == s.jobs[j].acceptedAt)
    && s.log <= t.log
    && |t.pool.workers| == |s.pool.workers|
  }

  /** The tables, the jobs and the log only grow. */
  lemma StepGrows(s: Process, a: Action)
    requires Enabled(s, a)
    ensures Grows(s, Apply(s, a))
  {
  }

  /** What a step does to the pool: one step of the pool machine, or none. */
  function PoolStep(s: Process, a: Action): seq<PM.Action>
    requires Enabled(s, a)
  {
    match a
    case QueryAccepted(_) => [PM.Enqueue(|s.jobs|)]
    case NotifyOne(_, w) => [PM.NotifyOne(w)]
    case NotifyNone(_) => [PM.NotifyNone]
    case Spurious(w) => [PM.Spurious(w)]
    case Section(w) => [PM.Section(w)]
    case RunThrow(w) => [PM.Finish(w)]
    case RunUnlock(w) => [PM.Finish(w)]
    case _ => []
  }

  lemma StepPool(s: Process, a: Action)
    requires Enabled(s, a)
    ensures PM.Path(s.pool, PoolStep(s, a), Apply(s, a).pool)
    ensures PM.Inv(s.pool) ==> PM.Inv(Apply(s, a).pool)
  {
    var acts := PoolStep(s, a);
    if acts != [] {
      assert PM.Path(Apply(s, a).pool, acts[1..], Apply(s, a).pool);
      if PM.Inv(s.pool) {
        PM.StepInv(s.pool, acts[0]);
      }
    }
  }

  lemma SubmissionPoolOfJobs(s: Process, a: Action)
    requires PoolOfJobs(s) && Enabled(s, a) && (a.QueryAccepted? || a.NotifyOne? || a.NotifyNone? || a.QueryReturns?)
    ensures PoolOfJobs(Apply(s, a))
  {
    var t := Apply(s, a);
    if a.QueryAccepted? {
      SumAppend(s.jobs, t.jobs[|s.jobs|], PushedWeight);
    } else {
      SumUpdate(s.jobs, a.job, t.jobs[a.job], PushedWeight);
    }
  }

  lemma StepPoolOfJobs(s: Process, a: Action)
    requires PoolOfJobs(s) && Enabled(s, a)
    ensures PoolOfJobs(Apply(s, a))
  {
    if a.QueryAccepted? || a.NotifyOne? || a.NotifyNone? || a.QueryReturns? {
      SubmissionPoolOfJobs(s, a);
    }
  }

  lemma StepJobs(s: Process, a: Action)
    requires Jobs(s) && Enabled(s, a)
    ensures Jobs(Apply(s, a))
  {
  }

  /** Queued and running tasks are numbers of jobs. */
  lemma QueuedJob(s: Process)
    requires PoolOfJobs(s) && PM.Fifo(s.pool) && s.pool.queue != []
    ensures s.pool.queue[0] < |s.jobs|
  {
    var k := |s.pool.dequeued|;
    assert s.pool.accepted[k] == s.pool.queue[0];
  }

  lemma WorkersStay(s: Process, a: Action)
    requires |s.work| == |s.pool.workers| && Enabled(s, a)
    ensures |Apply(s, a).work| == |s.work| == |Apply(s, a).pool.workers|
  {
  }

  lemma SectionWork(s: Process, w: nat)
    requires PoolOfJobs(s) && PM.Fifo(s.pool) && Enabled(s, Section(w)) && WorkOf(s, w)
    ensures WorkOf(Apply(s, Section(w)), w)
  {
    if s.pool.queue != [] {
      QueuedJob(s);
    }
  }

  lemma SelectWork(s: Process, w: nat, rows: seq<Row>)
    requires Jobs(s) && Enabled(s, RunSelect(w, rows))
    ensures WorkOf(Apply(s, RunSelect(w, rows)), w)
  {
    assert s.db.messages[..|s.db.messages|] == s.db.messages;
  }

  /** A worker without a snapshot waits, or begins or ends a job. */
  lemma BareWork(s: Process, a: Action, w: nat)
    requires |s.work| == |s.pool.workers| && w < |s.work| && WorkOf(s, w) && Enabled(s, a)
    requires !(a.Section? && a.w == w) && !(a.RunSelect? && a.w == w)
    requires s.work[w].Idle? || s.work[w].Fetching?
    ensures w < |Apply(s, a).work| && w < |Apply(s, a).pool.workers| && WorkOf(Apply(s, a), w)
  {
  }

  /** A step of the job of worker w. */
  predicate JobStep(a: Action, w: nat)
  {
    (a.RunSelect? || a.RunThrow? || a.RunLock? || a.RunUnlock?) && a.w == w
  }

  lemma OthersSpareWork(s: Process, a: Action, w: nat)
    requires RunningJob(s, w) && Enabled(s, a) && !JobStep(a, w)
    ensures RunningJob(Apply(s, a), w)
    ensures Apply(s, a).work[w] == s.work[w] && Apply(s, a).pool.workers[w] == s.pool.workers[w]
  {
  }

  /** A worker with a snapshot keeps it while the others go on. */
  lemma SnapshotWork(s: Process, a: Action, w: nat)
    requires w < |s.work| == |s.pool.workers| && WorkOf(s, w) && Enabled(s, a) && !JobStep(a, w)
    requires s.work[w].Selected? || s.work[w].InCallback?
    ensures w < |Apply(s, a).work| && w < |Apply(s, a).pool.workers| && WorkOf(Apply(s, a), w)
  {
    OthersSpareWork(s, a, w);
    StepGrows(s, a);
    SnapshotKept(s, Apply(s, a), s.pool.workers[w].task, s.work[w].rows, s.work[w].at);
  }

  /** It takes the snapshot into its callback. */
  lemma LockWork(s: Process, w: nat)
    requires w < |s.pool.workers| && Enabled(s, RunLock(w)) && WorkOf(s, w)
    ensures WorkOf(Apply(s, RunLock(w)), w)
  {
    SnapshotKept(s, Apply(s, RunLock(w)), s.pool.workers[w].task, s.work[w].rows, s.work[w].at);
  }

  /** It ends its job. */
  lemma EndWork(s: Process, a: Action)
    requires Enabled(s, a) && (a.RunThrow? || a.RunUnlock?)
    ensures a.w < |Apply(s, a).work| && a.w < |Apply(s, a).pool.workers| && WorkOf(Apply(s, a), a.w)
  {
  }

  lemma StepWork(s: Process, a: Action, w: nat)
    requires PoolOfJobs(s) && PM.Fifo(s.pool) && Jobs(s) && Works(s) && Enabled(s, a) && w < |s.work|
    ensures |Apply(s, a).work| == |s.work| == |Apply(s, a).pool.workers| && WorkOf(Apply(s, a), w)
  {
    WorkersStay(s, a);
    assert WorkOf(s, w);
    if a.Section? && a.w == w {
      SectionWork(s, w);
    } else if a.RunSelect? && a.w == w {
      SelectWork(s, w, a.rows);
    } else if a.RunLock? && a.w == w {
      LockWork(s, w);
    } else if (a.RunThrow? || a.RunUnlock?) && a.w == w {
      EndWork(s, a);
    } else if s.work[w].Selected? || s.work[w].InCallback? {
      SnapshotWork(s, a, w);
    } else {
      BareWork(s, a, w);
    }
  }

  lemma StepLogged(s: Process, a: Action)
    requires Logged(s) && Works(s) && Enabled(s, a)
    ensures Logged(Apply(s, a))
  {
    var t := Apply(s, a);
    StepGrows(s, a);
    forall k | 0 <= k < |t.log| && t.log[k].Delivered?
      ensures Snapshot(t, t.log[k].job, t.log[k].rows, t.log[k].at) && t.log[k].at <= t.log[k].begun <= |t.db.messages|
    {
      if k == |s.log| {
        assert WorkOf(s, a.w);
      } else {
        assert t.log[k] == s.log[k];
      }
      SnapshotKept(s, t, t.log[k].job, t.log[k].rows, t.log[k].at);
    }
  }

  lemma StepLock(s: Process, a: Action)
    requires LockExact(s) && Works(s) && Enabled(s, a)
    ensures LockExact(Apply(s, a))
  {
    if a.Section? {
      assert WorkOf(s, a.w);
    }
  }

  lemma CommitCounted(s: Process, k: nat, id: int, createdAt: int)
    requires RowsCounted(s) && Enabled(s, PersistCommit(k, id, createdAt))
    ensures RowsCounted(Apply(s, PersistCommit(k, id, createdAt)))
  {
    SumUpdate(s.persists, k, s.persists[k].(stage := AnsweredSuccess(|s.db.messages|)), SuccessWeight);
  }

  lemma StageCounted(s: Process, k: nat, stage: PersistStage)
    requires RowsCounted(s) && Unanswered(s, k) && !stage.AnsweredSuccess?
    ensures RowsCounted(SetStage(s, k, stage))
  {
    SumUpdate(s.persists, k, s.persists[k].(stage := stage), SuccessWeight);
  }

  lemma StepRowsCounted(s: Process, a: Action)
    requires RowsCounted(s) && Enabled(s, a)
    ensures RowsCounted(Apply(s, a))
  {
    match a
    case PersistCall(message, name) => SumAppend(s.persists, Persist(message, name, Preparing), SuccessWeight);
    case PersistInsert(k) => StageCounted(s, k, Staged(Column(s.db.exchanges, s.persists[k].name).value));
    case PersistFails(k) => StageCounted(s, k, AnsweredError);
    case PersistCommit(k, id, createdAt) => CommitCounted(s, k, id, createdAt);
    case _ =>
  }

  lemma StepPersisted(s: Process, a: Action)
    requires Persisted(s) && RowsCounted(s) && Enabled(s, a)
    ensures Persisted(Apply(s, a))
  {
    var t := Apply(s, a);
    forall k | 0 <= k < |t.persists| ensures PersistOf(t, k) {
      assert k < |s.persists| ==> PersistOf(s, k);
    }
    if a.PersistCommit? {
      forall m | 0 <= m < |s.persists| && s.persists[m].stage.AnsweredSuccess?
        ensures s.persists[m].stage.at < |s.db.messages|
      {
        assert PersistOf(s, m);
      }
    }
  }

  /** A committed row respects the foreign key. */
  lemma StepSchema(s: Process, a: Action)
    requires Schema(s.db) && Persisted(s) && Enabled(s, a)
    ensures Schema(Apply(s, a).db)
  {
    if a.PersistCommit? {
      assert PersistOf(s, a.k);
      var exchange := s.persists[a.k].stage.exchange;
      if exchange != Null {
        var i :| 0 <= i < |s.db.exchanges| && s.db.exchanges[i] == Exchange(exchange.value, Just(s.persists[a.k].name));
        assert HasId(s.db.exchanges, exchange.value);
      }
    }
  }

  lemma StepInv(s: Process, a: Action)
    requires Inv(s) && Enabled(s, a)
    ensures Inv(Apply(s, a))
  {
    StepPool(s, a);
    StepPoolOfJobs(s, a);
    StepJobs(s, a);
    StepLogged(s, a);
    StepLock(s, a);
    StepPersisted(s, a);
    StepRowsCounted(s, a);
    StepSchema(s, a);
    StepGrows(s, a);
    forall w | 0 <= w < |s.work| ensures |Apply(s, a).work| == |s.work| && WorkOf(Apply(s, a), w) {
      StepWork(s, a, w);
    }
  }

  lemma {:induction false} PathInv(s: Process, acts: seq<Action>, t: Process)
    requires Inv(s) && Path(s, acts, t)
    ensures Inv(t) && Grows(s, t)
    decreases |acts|
  {
    if acts != [] {
      StepInv(s, acts[0]);
      StepGrows(s, acts[0]);
      PathInv(Apply(s, acts[0]), acts[1..], t);
    }
  }

  lemma Reachable(db: Tables, n: nat, acts: seq<Action>, s: Process)
    requires Schema(db) && Path(Start(db, n), acts, s)
    ensures Inv(s) && Grows(Start(db, n), s)
  {
    StartInv(db, n);
    PathInv(Start(db, n), acts, s);
  }

  /** s is a state of some run of a client on some tables. */
  ghost predicate Reached(s: Process)
  {
    exists db, n, acts :: Schema(db) && Path(Start(db, n), acts, s)
  }

  lemma ReachedInv(s: Process)
    requires Reached(s)
    ensures Inv(s)
  {
    var db, n, acts :| Schema(db) && Path(Start(db, n), acts, s);
    Reachable(db, n, acts, s);
  }

  lemma ReachedPath(s: Process, acts: seq<Action>, t: Process)
    requires Reached(s) && Path(s, acts, t)
    ensures Reached(t)
  {
    var db, n, before :| Schema(db) && Path(Start(db, n), before, s);
    PathAppend(Start(db, n), before, s, acts, t);
  }

  /** A call that has pushed its job finds its own notification pending. */
  lemma NotifyPending(s: Process, j: nat)
    requires Reached(s) && JobAt(s, j, Pushed)
    ensures s.pool.notifies > 0
  {
    ReachedInv(s);
    SumAtLeast(s.jobs, j, PushedWeight);
  }

  lemma LivePool(s: Process)
    requires Reached(s)
    ensures s.pool.phase == PM.Open
  {
    ReachedInv(s);
  }

  /** A worker that holds the callback lock is in the callback of a job. */
  lemma HolderRuns(s: Process)
    requires Reached(s) && s.lock.HeldByWorker?
    ensures s.lock.w < |s.work| && s.work[s.lock.w].InCallback? && RunningJob(s, s.lock.w)
  {
    ReachedInv(s);
    assert WorkOf(s, s.lock.w);
  }

  // ----- what a callback receives -----

  /** The table that the exchange name of a query selects from a list of messages. */
  function Answer(exchanges: seq<Exchange>, messages: seq<Row>, name: string): seq<Row>
  {
    if name == "" then messages else JoinByName(exchanges, messages, name)
  }

  lemma FilterIsAnswer(exchanges: seq<Exchange>, messages: seq<Row>, name: string)
    requires UniqueKeys(exchanges) && SerialIds(exchanges) && Resolve(exchanges, name) != Null
    ensures Select(messages, Resolve(exchanges, name).value) == Answer(exchanges, messages, name)
  {
    if name == "" {
      SelectAll(messages);
    } else {
      var id := Resolve(exchanges, name).value;
      var i :| 0 <= i < |exchanges| && exchanges[i] == Exchange(id, Just(name));
      assert id > 0;
      TwoStepLookup(exchanges, messages, name, id);
    }
  }

  lemma SelectIsAnswer(s: Process, j: nat, messages: seq<Row>)
    requires Inv(s) && j < |s.jobs|
    ensures Select(messages, s.jobs[j].filter) == Answer(s.db.exchanges, messages, s.jobs[j].name)
  {
    FilterIsAnswer(s.db.exchanges, messages, s.jobs[j].name);
  }

  lemma SelectGrowsWith(messages: seq<Row>, a: nat, b: nat, filter: int)
    requires a <= b <= |messages|
    ensures multiset(Select(messages[..b], filter)) ==
            multiset(Select(messages[..a], filter)) + multiset(Select(messages[a..b], filter))
  {
    assert messages[..b] == messages[..a] + messages[a..b];
    SelectSplit(messages[..a], messages[a..b], filter);
  }

  /** The list that a callback receives is the answer to its query on the table at the moment of its SELECT, which
      lies between the acceptance of the job and the start of the callback: it holds every matching row committed
      before the job was accepted, and no row committed after the callback began. */
  lemma QuerySnapshot(db: Tables, n: nat, acts: seq<Action>, s: Process, k: nat)
    requires Schema(db) && Path(Start(db, n), acts, s) && k < |s.log| && s.log[k].Delivered?
    ensures s.log[k].job < |s.jobs|
    ensures var d, job := s.log[k], s.jobs[s.log[k].job];
            && job.acceptedAt <= d.at <= d.begun <= |s.db.messages|
            && multiset(d.rows) == multiset(Answer(db.exchanges, s.db.messages[..d.at], job.name))
            && multiset(Answer(db.exchanges, s.db.messages[..job.acceptedAt], job.name)) <= multiset(d.rows)
            && multiset(d.rows) <= multiset(s.db.messages[..d.begun])
  {
    Reachable(db, n, acts, s);
    var d := s.log[k];
    assert Snapshot(s, d.job, d.rows, d.at);
    var job := s.jobs[d.job];
    SelectIsAnswer(s, d.job, s.db.messages[..d.at]);
    SelectIsAnswer(s, d.job, s.db.messages[..job.acceptedAt]);
    SelectGrowsWith(s.db.messages, job.acceptedAt, d.at, job.filter);
    SelectGrowsWith(s.db.messages, d.at, d.begun, job.filter);
    SelectWithin(s.db.messages[..d.begun], job.filter);
  }

  lemma {:induction false} SelectWithin(messages: seq<Row>, filter: int)
    ensures multiset(Select(messages, filter)) <= multiset(messages)
  {
    if messages != [] {
      SelectWithin(messages[..|messages| - 1], filter);
      assert messages == messages[..|messages| - 1] + [messages[|messages| - 1]];
    }
  }

  /** Of two queries on the same exchange, the one that selects later delivers a superset. */
  lemma LaterIsSuperset(db: Tables, n: nat, acts: seq<Action>, s: Process, k: nat, m: nat)
    requires Schema(db) && Path(Start(db, n), acts, s)
    requires k < |s.log| && m < |s.log| && s.log[k].Delivered? && s.log[m].Delivered?
    requires s.log[k].job < |s.jobs| && s.log[m].job < |s.jobs|
      && s.jobs[s.log[k].job].name == s.jobs[s.log[m].job].name
    requires s.log[k].at <= s.log[m].at
    ensures multiset(s.log[k].rows) <= multiset(s.log[m].rows)
  {
    Reachable(db, n, acts, s);
    assert Snapshot(s, s.log[k].job, s.log[k].rows, s.log[k].at)
      && Snapshot(s, s.log[m].job, s.log[m].rows, s.log[m].at);
    SelectGrowsWith(s.db.messages, s.log[k].at, s.log[m].at, s.jobs[s.log[k].job].filter);
  }

  /** Rows committed while pgMessageQuery is still on its way back can be missing: the callback has received every
      matching row committed before the return exactly if none of them was committed after the job's SELECT. */
  lemma RowsBeforeReturn(db: Tables, n: nat, acts: seq<Action>, s: Process, k: nat)
    requires Schema(db) && Path(Start(db, n), acts, s) && k < |s.log| && s.log[k].Delivered?
    requires s.log[k].job < |s.jobs| && s.jobs[s.log[k].job].submission.Returned?
    ensures var d, job := s.log[k], s.jobs[s.log[k].job];
            && d.at <= |s.db.messages| && job.submission.at <= |s.db.messages|
            && (multiset(Answer(db.exchanges, s.db.messages[..job.submission.at], job.name)) <= multiset(d.rows) <==>
                d.at >= job.submission.at
                  || Answer(db.exchanges, s.db.messages[d.at..job.submission.at], job.name) == [])
  {
    Reachable(db, n, acts, s);
    var d := s.log[k];
    assert Snapshot(s, d.job, d.rows, d.at);
    var job := s.jobs[d.job];
    var back := job.submission.at;
    SelectIsAnswer(s, d.job, s.db.messages[..back]);
    if d.at >= back {
      SelectGrowsWith(s.db.messages, back, d.at, job.filter);
    } else {
      SelectGrowsWith(s.db.messages, d.at, back, job.filter);
      SelectIsAnswer(s, d.job, s.db.messages[d.at..back]);
      var late := Select(s.db.messages[d.at..back], job.filter);
      if late != [] {
        assert late[0] in multiset(late);
        assert multiset(Select(s.db.messages[..back], job.filter))[late[0]] > multiset(d.rows)[late[0]];
      }
    }
  }

  lemma {:induction false} PathAppend(s: Process, acts: seq<Action>, t: Process, more: seq<Action>, u: Process)
    requires Path(s, acts, t) && Path(t, more, u)
    ensures Path(s, acts + more, u)
    decreases |acts|
  {
    if acts == [] {
      assert acts + more == more;
    } else {
      assert (acts + more)[0] == acts[0] && (acts + more)[1..] == acts[1..] + more;
      PathAppend(Apply(s, acts[0]), acts[1..], t, more, u);
    }
  }

  lemma OneStep(s: Process, a: Action, t: Process)
    requires Enabled(s, a) && Apply(s, a) == t
    ensures Path(s, [a], t)
  {
    assert Path(t, [a][1..], t);
  }

  lemma OneMoreStep(s: Process, acts: seq<Action>, t: Process, a: Action, u: Process)
    requires Path(s, acts, t) && Enabled(t, a) && Apply(t, a) == u
    ensures Path(s, acts + [a], u)
  {
    OneStep(t, a, u);
    PathAppend(s, acts, t, [a], u);
  }

  // ----- rows committed while a query is being submitted -----

  /** The matching rows that were committed before the call of pgMessageQuery returned have all been delivered. */
  predicate DeliversAll(s: Process, k: nat)
    requires k < |s.log| && s.log[k].Delivered? && s.log[k].job < |s.jobs| && s.jobs[s.log[k].job].submission.Returned?
    requires s.jobs[s.log[k].job].submission.at <= |s.db.messages|
  {
    var job := s.jobs[s.log[k].job];
    multiset(Answer(s.db.exchanges, s.db.messages[..job.submission.at], job.name)) <= multiset(s.log[k].rows)
  }

  /** Entry k of the log is the callback of a query on the given name, and window is what was committed between the
      acceptance of its job and the return of its call. */
  predicate DuringCall(s: Process, k: nat, name: string, window: seq<Row>)
  {
    && k < |s.log| && s.log[k].Delivered? && s.log[k].job < |s.jobs|
    && var job := s.jobs[s.log[k].job];
    && job.name == name && job.submission.Returned? && job.acceptedAt <= job.submission.at <= |s.db.messages|
    && s.db.messages[job.acceptedAt..job.submission.at] == window
  }

  lemma NothingInTail(window: seq<Row>, skipped: nat, filter: int)
    requires skipped <= |window| && Select(window, filter) == []
    ensures Select(window[skipped..], filter) == []
  {
    assert window == window[..skipped] + window[skipped..];
    SelectSplit(window[..skipped], window[skipped..], filter);
  }

  /** A query during whose call no matching row is committed is safe in every run: its callback receives every
      matching row committed before the call returned. */
  lemma QuietCallDeliversAll(db: Tables, n: nat, acts: seq<Action>, s: Process, k: nat, name: string, window: seq<Row>)
    requires Schema(db) && Path(Start(db, n), acts, s) && DuringCall(s, k, name, window)
    requires Answer(db.exchanges, window, name) == []
    ensures DeliversAll(s, k)
  {
    Reachable(db, n, acts, s);
    var d, job := s.log[k], s.jobs[s.log[k].job];
    RowsBeforeReturn(db, n, acts, s, k);
    assert Snapshot(s, d.job, d.rows, d.at);
    if d.at < job.submission.at {
      var skipped := d.at - job.acceptedAt;
      assert window[skipped..] == s.db.messages[d.at..job.submission.at];
      SelectIsAnswer(s, d.job, window);
      SelectIsAnswer(s, d.job, window[skipped..]);
      NothingInTail(window, skipped, job.filter);
    }
  }

  /** Some call of pgMessagePersist can write each of the rows. */
  ghost predicate Writable(exchanges: seq<Exchange>, rows: seq<Row>)
  {
    forall k :: 0 <= k < |rows| ==> exists name :: Column(exchanges, name) == Just(rows[k].exchange)
  }

  /** Another thread persists a row. */
  lemma PersistOne(s: Process, row: Row, name: string) returns (acts: seq<Action>, t: Process)
    requires Column(s.db.exchanges, name) == Just(row.exchange)
    ensures Path(s, acts, t)
    ensures t == s.(db := s.db.(messages := s.db.messages + [row]), persists := t.persists)
  {
    var k := |s.persists|;
    var s1 := s.(persists := s.persists + [Persist(row.payload, name, Preparing)]);
    var s2 := s.(persists := s.persists + [Persist(row.payload, name, Staged(row.exchange))]);
    var commit := PersistCommit(k, row.id, row.createdAt);
    t := Apply(s2, commit);
    acts := [PersistCall(row.payload, name)];
    OneStep(s, acts[0], s1);
    OneMoreStep(s, acts, s1, PersistInsert(k), s2);
    OneMoreStep(s, acts + [PersistInsert(k)], s2, commit, t);
    acts := acts + [PersistInsert(k)] + [commit];
  }

  /** Other threads persist rows, one after the other. */
  lemma {:induction false} PersistAll(s: Process, rows: seq<Row>) returns (acts: seq<Action>, t: Process)
    requires Writable(s.db.exchanges, rows)
    ensures Path(s, acts, t)
    ensures t == s.(db := s.db.(messages := s.db.messages + rows), persists := t.persists)
  {
    if rows == [] {
      return [], s;
    }
    var front, last := rows[..|rows| - 1], rows[|rows| - 1];
    var first, mid := PersistAll(s, front);
    var name :| Column(s.db.exchanges, name) == Just(last.exchange);
    var second;
    second, t := PersistOne(mid, last, name);
    PathAppend(s, first, mid, second, t);
    assert s.db.messages + front + [last] == s.db.messages + rows;
    acts := first + second;
  }

  function FirstJob(db: Tables, name: string, submission: Submission): Job
    requires Resolve(db.exchanges, name) != Null
  {
    Job(name, Resolve(db.exchanges, name).value, |db.messages|, submission)
  }

  /** The first query of a client has been accepted and its job is on worker 0; the call has not yet notified. */
  function Racing(db: Tables, n: nat, name: string, work: Work): Process
    requires n > 0 && Resolve(db.exchanges, name) != Null
  {
    var s := Start(db, n);
    s.(pool := s.pool.(workers := s.pool.workers[0 := PM.Running(0)], notifies := 1, accepted := [0], dequeued := [0]),
       work := s.work[0 := work],
       jobs := [FirstJob(db, name, Pushed)])
  }

  lemma RaceBegins(db: Tables, n: nat, name: string) returns (acts: seq<Action>)
    requires n > 0 && Resolve(db.exchanges, name) != Null
    ensures Path(Start(db, n), acts, Racing(db, n, name, Fetching))
  {
    var s0 := Start(db, n);
    var s1 := Apply(s0, QueryAccepted(name));
    OneStep(s0, QueryAccepted(name), s1);
    assert s1.pool.queue == [0] && [0][1..] == [];
    OneMoreStep(s0, [QueryAccepted(name)], s1, Section(0), Racing(db, n, name, Fetching));
    acts := [QueryAccepted(name)] + [Section(0)];
  }

  lemma RaceSelects(db: Tables, n: nat, name: string) returns (acts: seq<Action>)
    requires n > 0 && Resolve(db.exchanges, name) != Null
    ensures var rows := Select(db.messages, Resolve(db.exchanges, name).value);
            Path(Start(db, n), acts, Racing(db, n, name, Selected(|db.messages|, rows)))
  {
    var rows := Select(db.messages, Resolve(db.exchanges, name).value);
    var s1, s2 := Racing(db, n, name, Fetching), Racing(db, n, name, Selected(|db.messages|, rows));
    acts := RaceBegins(db, n, name);
    OneMoreStep(Start(db, n), acts, s1, RunSelect(0, rows), s2);
    acts := acts + [RunSelect(0, rows)];
  }

  /** The call notifies and returns, and the callback runs. */
  lemma RaceDelivers(s: Process, db: Tables, n: nat, name: string, rows: seq<Row>)
    returns (acts: seq<Action>, t: Process)
    requires n > 0 && Resolve(db.exchanges, name) != Null
    requires s == Racing(db, n, name, Selected(|db.messages|, rows)).(db := s.db, persists := s.persists)
    ensures Path(s, acts, t) && t.db == s.db
    ensures t.jobs == [FirstJob(db, name, Returned(|s.db.messages|))]
    ensures t.log == [Delivered(0, rows, |db.messages|, |s.db.messages|)]
  {
    var s1 := s.(pool := s.pool.(notifies := 0), jobs := [FirstJob(db, name, Notified)]);
    var s2 := s1.(jobs := [FirstJob(db, name, Returned(|s.db.messages|))]);
    var s3 := s2.(work := s.work[0 := InCallback(|db.messages|, rows, |s.db.messages|)], lock := HeldByWorker(0));
    t := Apply(s3, RunUnlock(0));
    OneStep(s, NotifyNone(0), s1);
    OneMoreStep(s, [NotifyNone(0)], s1, QueryReturns(0), s2);
    OneMoreStep(s, [NotifyNone(0)] + [QueryReturns(0)], s2, RunLock(0), s3);
    OneMoreStep(s, [NotifyNone(0)] + [QueryReturns(0)] + [RunLock(0)], s3, RunUnlock(0), t);
    acts := [NotifyNone(0)] + [QueryReturns(0)] + [RunLock(0)] + [RunUnlock(0)];
  }

  /** For every table, every name that resolves and all rows that persists can write, some schedule commits the rows
      while pgMessageQuery is on its way back and before the callback begins, and the callback receives none of them:
      the job selects, the others persist, and only then does the call return. */
  lemma RaceLosesRows(db: Tables, n: nat, name: string, window: seq<Row>) returns (acts: seq<Action>, s: Process)
    requires Schema(db) && n > 0 && Resolve(db.exchanges, name) != Null && Writable(db.exchanges, window)
    ensures Path(Start(db, n), acts, s) && s.db.messages == db.messages + window
    ensures s.jobs == [FirstJob(db, name, Returned(|db.messages| + |window|))]
    ensures s.log == [Delivered(0, Answer(db.exchanges, db.messages, name), |db.messages|, |db.messages| + |window|)]
  {
    var rows := Select(db.messages, Resolve(db.exchanges, name).value);
    var s1 := Racing(db, n, name, Selected(|db.messages|, rows));
    var first := RaceSelects(db, n, name);
    var second, s2 := PersistAll(s1, window);
    var third;
    third, s := RaceDelivers(s2, db, n, name, rows);
    PathAppend(Start(db, n), first, s1, second, s2);
    PathAppend(Start(db, n), first + second, s2, third, s);
    FilterIsAnswer(db.exchanges, db.messages, name);
    acts := first + second + third;
  }

  /** Every run of a client on these tables delivers all the rows committed before the return of a call on the name
      during which window is committed. */
  ghost predicate SafeCall(db: Tables, n: nat, name: string, window: seq<Row>)
  {
    forall acts, s, k :: Path(Start(db, n), acts, s) && DuringCall(s, k, name, window) ==> DeliversAll(s, k)
  }

  lemma RacedCall(s: Process, db: Tables, name: string, window: seq<Row>, rows: seq<Row>)
    requires Resolve(db.exchanges, name) != Null && s.db.messages == db.messages + window
    requires s.jobs == [FirstJob(db, name, Returned(|db.messages| + |window|))]
    requires s.log == [Delivered(0, rows, |db.messages|, |db.messages| + |window|)]
    ensures DuringCall(s, 0, name, window)
    ensures s.db.messages[s.log[0].at..s.jobs[0].submission.at] == window
  {
  }

  lemma LoudCallLosesRows(db: Tables, n: nat, name: string, window: seq<Row>) returns (acts: seq<Action>, s: Process)
    requires Schema(db) && n > 0 && Resolve(db.exchanges, name) != Null && Writable(db.exchanges, window)
    requires Answer(db.exchanges, window, name) != []
    ensures Path(Start(db, n), acts, s) && DuringCall(s, 0, name, window) && !DeliversAll(s, 0)
  {
    acts, s := RaceLosesRows(db, n, name, window);
    RacedCall(s, db, name, window, s.log[0].rows);
    assert window != [];
    Unchanged(db, n, acts, s);
    RowsBeforeReturn(db, n, acts, s, 0);
  }

  lemma Unchanged(db: Tables, n: nat, acts: seq<Action>, s: Process)
    requires Schema(db) && Path(Start(db, n), acts, s)
    ensures s.db.exchanges == db.exchanges
  {
    Reachable(db, n, acts, s);
  }

  /** When is "every matching row committed before pgMessageQuery returns is delivered" true? For every table, every
      name that resolves and all rows committed while the call is under way: under every schedule, exactly if none of
      those rows matches. */
  lemma SafeIffQuietCall(db: Tables, n: nat, name: string, window: seq<Row>)
    requires Schema(db) && n > 0 && Resolve(db.exchanges, name) != Null && Writable(db.exchanges, window)
    ensures SafeCall(db, n, name, window) <==> Answer(db.exchanges, window, name) == []
  {
    if Answer(db.exchanges, window, name) == [] {
      forall acts, s, k | Path(Start(db, n), acts, s) && DuringCall(s, k, name, window) ensures DeliversAll(s, k) {
        QuietCallDeliversAll(db, n, acts, s, k, name, window);
      }
    } else {
      var acts, s := LoudCallLosesRows(db, n, name, window);
      var k: nat := 0;
      assert DuringCall(s, k, name, window) && !DeliversAll(s, k);
    }
  }

  /** On every table, the query on a known name is the join on that name exactly if the name is not empty, or every
      message is on that exchange anyway. */
  lemma AnswerIsJoin(db: Tables, name: string)
    requires Schema(db) && Named(db.exchanges, name)
    ensures Answer(db.exchanges, db.messages, name) == JoinByName(db.exchanges, db.messages, name) <==>
              name != "" || AllOn(db.messages, Lookup(db.exchanges, name).value)
  {
    JoinIsAll(db.exchanges, db.messages, name, Lookup(db.exchanges, name).value);
  }

  /** An exchange whose name is empty cannot be addressed: the callback of a query on a known name receives the rows
      of that exchange exactly if the name is not empty, or if there are no other rows. */
  lemma EmptyNameMeansEverything(db: Tables, n: nat, acts: seq<Action>, s: Process, k: nat)
    requires Schema(db) && Path(Start(db, n), acts, s) && k < |s.log| && s.log[k].Delivered?
    requires s.log[k].job < |s.jobs| && Named(db.exchanges, s.jobs[s.log[k].job].name) && s.log[k].at <= |s.db.messages|
    ensures var name, seen := s.jobs[s.log[k].job].name, s.db.messages[..s.log[k].at];
            multiset(s.log[k].rows) == multiset(JoinByName(db.exchanges, seen, name)) <==>
              name != "" || AllOn(seen, Lookup(db.exchanges, name).value)
  {
    QuerySnapshot(db, n, acts, s, k);
    var name, seen := s.jobs[s.log[k].job].name, s.db.messages[..s.log[k].at];
    JoinIsAll(db.exchanges, seen, name, Lookup(db.exchanges, name).value);
    assert |multiset(seen)| == |seen|;
    assert |multiset(JoinByName(db.exchanges, seen, name))| == |JoinByName(db.exchanges, seen, name)|;
  }

  // ----- accounting -----

  lemma {:induction false} OutcomesSplit(log: seq<Outcome>)
    ensures Sum(log, DeliveredWeight) + Sum(log, FailedWeight) == |log|
  {
    if log != [] {
      OutcomesSplit(log[..|log| - 1]);
    }
  }

  lemma {:induction false} NumberedOnce(s: seq<nat>, x: nat)
    requires forall k :: 0 <= k < |s| ==> s[k] == k
    ensures multiset(s)[x] <= 1
    ensures multiset(s)[x] == 1 <==> x < |s|
  {
    if s != [] {
      var front := s[..|s| - 1];
      NumberedOnce(front, x);
      assert s == front + [s[|s| - 1]];
    }
  }

  lemma Twice(s: seq<nat>, i: nat, j: nat)
    requires i < j < |s| && s[i] == s[j]
    ensures multiset(s)[s[i]] >= 2
  {
    assert s == s[..j] + [s[j]] + s[j + 1..];
    assert s[..j][i] == s[i];
    assert s[i] in multiset(s[..j]);
  }

  /** Every accepted job has one PG_SUCCESS answer, given or on its way; no job ends twice; so a callback runs at most
      once per PG_SUCCESS, and once all jobs have ended the callbacks run and the jobs that failed silently add up to
      the PG_SUCCESS answers. */
  lemma QueryAccounting(db: Tables, n: nat, acts: seq<Action>, s: Process)
    requires Schema(db) && Path(Start(db, n), acts, s)
    ensures |s.pool.accepted| == |s.jobs| && Sum(s.jobs, ReturnedWeight) <= |s.jobs|
    ensures (forall j :: 0 <= j < |s.jobs| ==> s.jobs[j].submission.Returned?) ==>
      Sum(s.jobs, ReturnedWeight) == |s.pool.accepted|
    ensures forall k, m :: 0 <= k < m < |s.log| ==> s.log[k].job != s.log[m].job
    ensures |s.log| == |s.pool.finished| <= |s.jobs|
    ensures Sum(s.log, DeliveredWeight) + Sum(s.log, FailedWeight) == |s.pool.finished|
  {
    Reachable(db, n, acts, s);
    AllReturned(s.jobs);
    OutcomesSplit(s.log);
    PM.Partition(s.pool);
    forall k, m | 0 <= k < m < |s.log|
      ensures s.log[k].job != s.log[m].job
    {
      NoTaskTwice(s.pool.accepted, s.pool.finished, k, m);
    }
  }

  lemma NoTaskTwice(accepted: seq<nat>, finished: seq<nat>, k: nat, m: nat)
    requires forall i :: 0 <= i < |accepted| ==> accepted[i] == i
    requires multiset(finished) <= multiset(accepted) && k < m < |finished|
    ensures finished[k] != finished[m]
  {
    NumberedOnce(accepted, finished[k]);
    if finished[k] == finished[m] {
      Twice(finished, k, m);
    }
  }

  lemma {:induction false} AllReturned(jobs: seq<Job>)
    ensures Sum(jobs, ReturnedWeight) <= |jobs|
    ensures (forall j :: 0 <= j < |jobs| ==> jobs[j].submission.Returned?) <==> Sum(jobs, ReturnedWeight) == |jobs|
  {
    if jobs != [] {
      var front := jobs[..|jobs| - 1];
      AllReturned(front);
      assert forall j :: 0 <= j < |front| ==> front[j] == jobs[j];
    }
  }

  // ----- silent failures -----

  /** The jobs whose worker was hit by an exception in the course of a run, in the order of the exceptions. */
  function ThrownJobs(s: Process, acts: seq<Action>): seq<nat>
    decreases |acts|
  {
    if acts == [] || !Enabled(s, acts[0]) then []
    else (if acts[0].RunThrow? then [s.pool.workers[acts[0].w].task] else []) + ThrownJobs(Apply(s, acts[0]), acts[1..])
  }

  function FailedJobs(log: seq<Outcome>): seq<nat>
  {
    if log == [] then [] else
      var last := log[|log| - 1];
      FailedJobs(log[..|log| - 1]) + (if last.Failed? then [last.job] else [])
  }

  lemma StepFailed(s: Process, a: Action)
    requires Enabled(s, a)
    ensures FailedJobs(Apply(s, a).log) ==
            FailedJobs(s.log) + (if a.RunThrow? then [s.pool.workers[a.w].task] else [])
  {
    assert Apply(s, a).log == s.log || Apply(s, a).log[..|s.log|] == s.log;
  }

  lemma {:induction false} FailedAreThrown(s: Process, acts: seq<Action>, t: Process)
    requires Path(s, acts, t)
    ensures FailedJobs(t.log) == FailedJobs(s.log) + ThrownJobs(s, acts)
    decreases |acts|
  {
    if acts != [] {
      var mid := Apply(s, acts[0]);
      var thrown := if acts[0].RunThrow? then [s.pool.workers[acts[0].w].task] else [];
      StepFailed(s, acts[0]);
      FailedAreThrown(mid, acts[1..], t);
      assert ThrownJobs(s, acts) == thrown + ThrownJobs(mid, acts[1..]);
    }
  }

  lemma {:induction false} FailedMembers(log: seq<Outcome>, j: nat)
    ensures j in FailedJobs(log) <==> exists k :: 0 <= k < |log| && log[k] == Failed(j)
  {
    if log != [] {
      var front, last := log[..|log| - 1], log[|log| - 1];
      FailedMembers(front, j);
      assert forall k :: 0 <= k < |front| ==> front[k] == log[k];
      assert log[|front|] == last;
    }
  }

  /** In every run a job that has ended has failed exactly if an exception hit its worker on the way; otherwise its
      callback has run. */
  lemma FailedIffThrown(db: Tables, n: nat, acts: seq<Action>, s: Process, k: nat)
    requires Schema(db) && Path(Start(db, n), acts, s) && k < |s.log|
    ensures s.log[k].Failed? <==> s.log[k].job in ThrownJobs(Start(db, n), acts)
  {
    var j := s.log[k].job;
    FailedAreThrown(Start(db, n), acts, s);
    FailedMembers(s.log, j);
    QueryAccounting(db, n, acts, s);
    if j in FailedJobs(s.log) {
      var m :| 0 <= m < |s.log| && s.log[m] == Failed(j);
      assert m == k;
    } else {
      assert s.log[k] != Failed(j);
    }
  }

  /** PG_SUCCESS does not mean that the query succeeded: on every table, for every name that resolves, a run in which
      the call has returned it and the job has ended without a callback. */
  lemma SilentFailure(db: Tables, n: nat, name: string) returns (acts: seq<Action>, s: Process)
    requires n > 0 && Resolve(db.exchanges, name) != Null
    ensures Path(Start(db, n), acts, s)
    ensures s.jobs == [FirstJob(db, name, Returned(|db.messages|))] && s.log == [Failed(0)]
  {
    var s1 := Racing(db, n, name, Fetching);
    var s2 := s1.(pool := s1.pool.(notifies := 0), jobs := [FirstJob(db, name, Notified)]);
    var s3 := s2.(jobs := [FirstJob(db, name, Returned(|db.messages|))]);
    s := Apply(s3, RunThrow(0));
    var first := RaceBegins(db, n, name);
    OneStep(s1, NotifyNone(0), s2);
    OneMoreStep(s1, [NotifyNone(0)], s2, QueryReturns(0), s3);
    OneMoreStep(s1, [NotifyNone(0)] + [QueryReturns(0)], s3, RunThrow(0), s);
    PathAppend(Start(db, n), first, s1, [NotifyNone(0)] + [QueryReturns(0)] + [RunThrow(0)], s);
    acts := first + ([NotifyNone(0)] + [QueryReturns(0)] + [RunThrow(0)]);
  }

  /** At most one query callback is running, over all clients of the process, and the lock is held exactly then. */
  lemma CallbacksExclude(db: Tables, n: nat, acts: seq<Action>, s: Process, v: nat, w: nat)
    requires Schema(db) && Path(Start(db, n), acts, s) && v < |s.work| && w < |s.work|
    ensures s.work[v].InCallback? && s.work[w].InCallback? ==> v == w
    ensures s.lock == HeldElsewhere || s.lock == Free ==> !s.work[w].InCallback?
    ensures s.lock == HeldByWorker(w) <==> s.work[w].InCallback?
  {
    Reachable(db, n, acts, s);
  }

  /** Over any run, the rows added are the PG_SUCCESS answers of pgMessagePersist, one row each, with the payload and
      the exchange of that call; a call that fails adds nothing; and every row's exchange exists. */
  lemma PersistAtomicity(db: Tables, n: nat, acts: seq<Action>, s: Process)
    requires Schema(db) && Path(Start(db, n), acts, s)
    ensures |s.db.messages| == |db.messages| + Sum(s.persists, SuccessWeight) && db.messages <= s.db.messages
    ensures forall k :: 0 <= k < |s.persists| && s.persists[k].stage.AnsweredSuccess? ==>
      var p := s.persists[k];
      && |db.messages| <= p.stage.at < |s.db.messages|
      && s.db.messages[p.stage.at].payload == p.message
      && s.db.messages[p.stage.at].exchange == (if p.name == "" then Null else Lookup(db.exchanges, p.name))
      && (p.name == "" || Named(db.exchanges, p.name))
    ensures OwnRows(s.persists) && ForeignKeys(s.db)
  {
    Reachable(db, n, acts, s);
    forall k | 0 <= k < |s.persists| && s.persists[k].stage.AnsweredSuccess?
      ensures PersistOf(s, k)
    {
    }
  }

  // ----- a client reads what it has written -----

  /** The row of a successful persist is in the list of every query on its exchange, or on all messages, whose job was
      accepted after the commit. */
  lemma CommittedIsDelivered(db: Tables, n: nat, acts: seq<Action>, s: Process, p: nat, k: nat)
    requires Schema(db) && Path(Start(db, n), acts, s)
    requires p < |s.persists| && s.persists[p].stage.AnsweredSuccess?
    requires k < |s.log| && s.log[k].Delivered? && s.log[k].job < |s.jobs|
    requires var job := s.jobs[s.log[k].job];
      s.persists[p].stage.at < job.acceptedAt && (job.name == "" || job.name == s.persists[p].name)
    ensures s.persists[p].stage.at < |s.db.messages| && s.db.messages[s.persists[p].stage.at] in s.log[k].rows
  {
    Reachable(db, n, acts, s);
    var d, at := s.log[k], s.persists[p].stage.at;
    assert PersistOf(s, p) && Snapshot(s, d.job, d.rows, d.at);
    assert s.db.messages[..d.at][at] == s.db.messages[at];
    SelectMembers(s.db.messages[..d.at], s.jobs[d.job].filter, s.db.messages[at]);
    assert s.db.messages[at] in multiset(d.rows);
  }

  /** What has been accepted or answered in s is as it was, and what is accepted later sees the table of s. */
  predicate Later(s: Process, t: Process)
  {
    && |s.db.messages| <= |t.db.messages| && |s.jobs| <= |t.jobs| && |s.persists| <= |t.persists|
    && (forall j :: 0 <= j < |s.jobs| ==> t.jobs[j].acceptedAt == s.jobs[j].acceptedAt)
    && (forall j :: |s.jobs| <= j < |t.jobs| ==> t.jobs[j].acceptedAt >= |s.db.messages|)
    && (forall p :: 0 <= p < |s.persists| && s.persists[p].stage.AnsweredSuccess? ==> t.persists[p] == s.persists[p])
  }

  lemma StepLater(s: Process, a: Action)
    requires Enabled(s, a)
    ensures Later(s, Apply(s, a))
  {
  }

  lemma {:induction false} PathLater(s: Process, acts: seq<Action>, t: Process)
    requires Path(s, acts, t)
    ensures Later(s, t)
    decreases |acts|
  {
    if acts != [] {
      StepLater(s, acts[0]);
      PathLater(Apply(s, acts[0]), acts[1..], t);
    }
  }

  /** Read your writes: once pgMessagePersist has returned PG_SUCCESS, every later query on that exchange, or on all
      messages, delivers its row, with the payload of the call, in whatever run the query is answered. */
  lemma ReadYourWrites(
    db: Tables, n: nat, before: seq<Action>, s: Process, after: seq<Action>, t: Process, p: nat, k: nat)
    requires Schema(db) && Path(Start(db, n), before, s) && Path(s, after, t)
    requires p < |s.persists| && s.persists[p].stage.AnsweredSuccess?
    requires k < |t.log| && t.log[k].Delivered? && |s.jobs| <= t.log[k].job < |t.jobs|
    requires t.jobs[t.log[k].job].name == "" || t.jobs[t.log[k].job].name == s.persists[p].name
    ensures s.persists[p].stage.at < |s.db.messages| && var row := s.db.messages[s.persists[p].stage.at];
      && row in t.log[k].rows && row.payload == s.persists[p].message
      && Column(db.exchanges, s.persists[p].name) == Just(row.exchange)
  {
    Reachable(db, n, before, s);
    assert PersistOf(s, p);
    var at := s.persists[p].stage.at;
    PathLater(s, after, t);
    PathInv(s, after, t);
    assert t.db.messages[at] == s.db.messages[at];
    PathAppend(Start(db, n), before, s, after, t);
    CommittedIsDelivered(db, n, before + after, t, p, k);
  }

  // ----- delivery by a live client -----

  /** The steps that the threads of the client, and the callbacks of other clients, take by themselves; no connector
      call needs to throw. */
  predicate Own(a: Action)
  {
    || a.NotifyOne? || a.NotifyNone? || a.QueryReturns? || a.Section?
    || a.RunSelect? || a.RunLock? || a.RunUnlock? || a.ElsewhereUnlocks?
  }

  /** While a worker runs a job somebody can go on: it, or whoever is in a callback. */
  lemma WorkerMoves(s: Process, w: nat) returns (a: Action)
    requires Inv(s) && w < |s.work| && s.pool.workers[w].Running?
    ensures Own(a) && Enabled(s, a)
  {
    assert WorkOf(s, w);
    match s.work[w]
    case Fetching => a := RunSelect(w, Select(s.db.messages, s.jobs[s.pool.workers[w].task].filter));
    case InCallback(_, _, _) => a := RunUnlock(w);
    case Selected(_, _) =>
      match s.lock {
        case Free => a := RunLock(w);
        case HeldElsewhere => a := ElsewhereUnlocks;
        case HeldByWorker(v) =>
          assert WorkOf(s, v);
          a := RunUnlock(v);
      }
    case Idle =>
  }

  ghost predicate Stuck(s: Process)
  {
    forall a :: Own(a) ==> !Enabled(s, a)
  }

  /** Notifying is possible for the call that still owes it. */
  lemma NotifierMoves(s: Process, j: nat) returns (a: Action)
    requires Inv(s) && j < |s.jobs| && s.jobs[j].submission.Pushed?
    ensures Own(a) && Enabled(s, a)
  {
    SumAtLeast(s.jobs, j, PushedWeight);
    if PM.NobodyParked(s.pool.workers) {
      a := NotifyNone(j);
    } else {
      var w :| 0 <= w < |s.pool.workers| && s.pool.workers[w].Parked?;
      a := NotifyOne(j, w);
    }
  }

  predicate Ended(s: Process, j: nat)
  {
    exists k :: 0 <= k < |s.log| && s.log[k].job == j
  }

  /** A live client answers every query: when none of its threads can take a step of its own, every call has returned
      PG_SUCCESS and every job has ended, delivered or failed, exactly once. */
  lemma QueriesComplete(db: Tables, n: nat, acts: seq<Action>, s: Process)
    requires Schema(db) && Path(Start(db, n), acts, s) && n > 0 && Stuck(s)
    ensures forall j :: 0 <= j < |s.jobs| ==> s.jobs[j].submission.Returned?
    ensures |s.log| == |s.jobs|
    ensures forall j :: 0 <= j < |s.jobs| ==> Ended(s, j)
    ensures Sum(s.log, DeliveredWeight) + Sum(s.log, FailedWeight) == Sum(s.jobs, ReturnedWeight)
  {
    Reachable(db, n, acts, s);
    StuckCalls(s);
    StuckPool(s);
    PM.SettledIsDone(s.pool);
    AllReturned(s.jobs);
    OutcomesSplit(s.log);
    AllEnded(s);
  }

  lemma StuckCalls(s: Process)
    requires Inv(s) && Stuck(s)
    ensures forall j :: 0 <= j < |s.jobs| ==> s.jobs[j].submission.Returned?
  {
    forall j | 0 <= j < |s.jobs| ensures s.jobs[j].submission.Returned? {
      if s.jobs[j].submission.Pushed? {
        var a := NotifierMoves(s, j);
      } else {
        assert !Enabled(s, QueryReturns(j));
      }
    }
  }

  lemma AllEnded(s: Process)
    requires PoolOfJobs(s) && multiset(s.pool.finished) == multiset(s.pool.accepted)
    ensures |s.log| == |s.jobs| && forall j :: 0 <= j < |s.jobs| ==> Ended(s, j)
  {
    assert |s.pool.finished| == |multiset(s.pool.finished)| == |multiset(s.pool.accepted)| == |s.jobs|;
    forall j | 0 <= j < |s.jobs| ensures Ended(s, j) {
      NumberedOnce(s.pool.accepted, j);
      assert j in multiset(s.pool.finished);
      var k :| 0 <= k < |s.pool.finished| && s.pool.finished[k] == j;
      assert s.log[k].job == j;
    }
  }

  lemma StuckPool(s: Process)
    requires Inv(s) && Stuck(s)
    requires forall j :: 0 <= j < |s.jobs| ==> s.jobs[j].submission.Returned?
    ensures PM.Settled(s.pool)
  {
    SumZero(s.jobs, PushedWeight);
    forall w | 0 <= w < |s.pool.workers|
      ensures !s.pool.workers[w].Running? && !s.pool.workers[w].Ready?
    {
      assert !Enabled(s, Section(w));
      if s.pool.workers[w].Running? {
        var a := WorkerMoves(s, w);
      }
    }
  }

  // ----- how long a client is busy -----

  function ReadyCost(w: PM.Worker): nat { if w.Ready? then 1 else 0 }

  function StageCost(work: Work): nat
  {
    match work case Idle => 0 case Fetching => 4 case Selected(_, _) => 3 case InCallback(_, _, _) => 2
  }

  function CallCost(job: Job): nat
  {
    match job.submission case Pushed => 3 case Notified => 1 case Returned(_) => 0
  }

  /** The steps that are still owed to the queries accepted so far. */
  function Effort(s: Process): nat
  {
    4 * |s.pool.queue| + Sum(s.pool.workers, ReadyCost) + Sum(s.work, StageCost) + Sum(s.jobs, CallCost)
    + if s.lock == HeldElsewhere then 1 else 0
  }

  function OwnCost(a: Action): nat { if Own(a) then 1 else 0 }

  /** What may add to that: a query, a spurious wakeup, a callback of another client. */
  function Demand(a: Action): nat
  {
    if a.QueryAccepted? then 7 else if a.Spurious? || a.ElsewhereLocks? then 1 else 0
  }

  lemma SubmissionEffort(s: Process, a: Action)
    requires Enabled(s, a) && (a.QueryAccepted? || a.NotifyOne? || a.NotifyNone? || a.QueryReturns?)
    ensures Effort(Apply(s, a)) + OwnCost(a) <= Effort(s) + Demand(a)
  {
    var t := Apply(s, a);
    if a.QueryAccepted? {
      SumAppend(s.jobs, t.jobs[|s.jobs|], CallCost);
    } else {
      SumUpdate(s.jobs, a.job, t.jobs[a.job], CallCost);
    }
    if a.NotifyOne? {
      SumUpdate(s.pool.workers, a.w, PM.Ready, ReadyCost);
    }
  }

  /** The steps of a worker on its job. */
  lemma JobEffort(s: Process, a: Action)
    requires Enabled(s, a) && (a.RunSelect? || a.RunThrow? || a.RunLock? || a.RunUnlock?)
    ensures Effort(Apply(s, a)) + OwnCost(a) <= Effort(s) + Demand(a)
  {
    var t := Apply(s, a);
    SumUpdate(s.work, a.w, t.work[a.w], StageCost);
    SumUpdate(s.pool.workers, a.w, t.pool.workers[a.w], ReadyCost);
  }

  lemma SectionEffort(s: Process, w: nat)
    requires Enabled(s, Section(w))
    ensures Effort(Apply(s, Section(w))) + 1 <= Effort(s)
  {
    var t := Apply(s, Section(w));
    SumUpdate(s.work, w, t.work[w], StageCost);
    SumUpdate(s.pool.workers, w, t.pool.workers[w], ReadyCost);
  }

  lemma StepEffort(s: Process, a: Action)
    requires Enabled(s, a)
    ensures Effort(Apply(s, a)) + OwnCost(a) <= Effort(s) + Demand(a)
  {
    match a
    case QueryAccepted(_) => SubmissionEffort(s, a);
    case NotifyOne(_, _) => SubmissionEffort(s, a);
    case NotifyNone(_) => SubmissionEffort(s, a);
    case QueryReturns(_) => SubmissionEffort(s, a);
    case RunSelect(_, _) => JobEffort(s, a);
    case RunThrow(_) => JobEffort(s, a);
    case RunLock(_) => JobEffort(s, a);
    case RunUnlock(_) => JobEffort(s, a);
    case Section(w) => SectionEffort(s, w);
    case Spurious(w) => SumUpdate(s.pool.workers, w, PM.Ready, ReadyCost);
    case _ =>
  }

  lemma {:induction false} RunEffort(s: Process, acts: seq<Action>, t: Process)
    requires Path(s, acts, t)
    ensures Sum(acts, OwnCost) + Effort(t) <= Effort(s) + Sum(acts, Demand)
    decreases |acts|
  {
    if acts != [] {
      SumHead(acts, OwnCost);
      SumHead(acts, Demand);
      StepEffort(s, acts[0]);
      RunEffort(Apply(s, acts[0]), acts[1..], t);
    }
  }

  /** In every run the client takes at most n own steps, and 7 for each accepted query, and 1 for each spurious wakeup
      and each callback of another client. So a client of n workers gets to the end that QueriesComplete describes,
      whatever the schedule. */
  lemma QueriesAreBounded(db: Tables, n: nat, acts: seq<Action>, s: Process)
    requires Path(Start(db, n), acts, s)
    ensures Sum(acts, OwnCost) + Effort(s) <= n + Sum(acts, Demand)
  {
    var s0 := Start(db, n);
    SumBound(s0.pool.workers, ReadyCost, 1);
    SumZero(s0.work, StageCost);
    RunEffort(s0, acts, s);
  }
}
