/** The thread pools of a process at the level of single lock operations.

    Any number of pools, each with its own queue lock, and any number of further threads share one process-wide
    callback lock. Workers, callers of enqueue and destructors acquire and release the locks one step at a time;
    a task may take the callback lock, and a task or a callback may call enqueue on any pool. The machine refines
    PoolMachine, whose steps are whole locked sections, and it never deadlocks. */
module LockLevel {
  import opened Sums
  import PM = PoolMachine

  type Task = PM.Task

  datatype ThreadId = Worker(pool: nat, index: nat) | App(index: nat) | Destructor(pool: nat)

  datatype LockName = Queue(pool: nat) | Callback

  datatype Lock = Free | HeldBy(holder: ThreadId)

  datatype Base =
    | WantQueue              // about to lock its queue: a new round, or awakened
    | InSection              // holds its queue lock, about to test the wait condition
    | Asleep                 // waiting on the condition variable, lock released
    | Holding(task: Task)    // has taken a task, still holds the lock
    | Leaving                // leaves the loop, still holds the lock
    | Gone
    | Working(task: Task)    // executes a task, outside the callback
    | WantCallback(task: Task)
    | InCallback(task: Task) // holds the callback lock
    | Application            // a thread that is not a worker

  /** The call of enqueue that a thread is executing, if any. */
  datatype Call =
    | NoCall
    | WantPush(pool: nat, task: Task)
    | InPush(pool: nat, task: Task) // holds the queue lock of pool
    | Pushed(pool: nat)             // holds it, its task is in the queue
    | ToNotify(pool: nat)           // has released it, notify_one is next

  datatype Thread = Thread(base: Base, call: Call)

  datatype Teardown = NotCalled | WantLock | InLock | StopSet | ToNotifyAll | Joining(joined: nat) | Returned

  /** What the threads of one pool share, and the histories of the pool. */
  datatype Shared = Shared(
    size: nat,
    queue: seq<Task>,
    lock: Lock,
    teardown: Teardown,
    accepted: seq<Task>,
    dequeued: seq<Task>,
    finished: seq<Task>)
  {
    predicate Stop() { teardown.StopSet? || teardown.ToNotifyAll? || teardown.Joining? || teardown.Returned? }
  }

  datatype State = State(threads: map<ThreadId, Thread>, pools: seq<Shared>, callback: Lock)

  /** Pools of the given sizes, all workers on their way to the queue lock, and some idle application threads. */
  ghost predicate Initial(s: State)
  {
    && Population(s)
    && (forall id | id in s.threads :: s.threads[id] == Thread(if id.Worker? then WantQueue else Application, NoCall))
    && (forall p | 0 <= p < |s.pools| :: s.pools[p] == Shared(s.pools[p].size, [], Free, NotCalled, [], [], []))
    && s.callback == Free
  }

  /** The threads are the workers of the pools and some application threads. */
  ghost predicate Population(s: State)
  {
    && (forall p: nat, i: nat :: Worker(p, i) in s.threads <==> p < |s.pools| && i < s.pools[p].size)
    && (forall p: nat :: Destructor(p) !in s.threads)
  }

  function Rebase(s: State, id: ThreadId, base: Base): State
    requires id in s.threads
  {
    s.(threads := s.threads[id := s.threads[id].(base := base)])
  }

  function Recall(s: State, id: ThreadId, call: Call): State
    requires id in s.threads
  {
    s.(threads := s.threads[id := s.threads[id].(call := call)])
  }

  function Share(s: State, p: nat, x: Shared): State
    requires p < |s.pools|
  {
    s.(pools := s.pools[p := x])
  }

  function LockOf(s: State, l: LockName): Lock
  {
    match l case Callback => s.callback case Queue(p) => if p < |s.pools| then s.pools[p].lock else Free
  }

  function SetLock(s: State, l: LockName, x: Lock): State
    requires l.Queue? ==> l.pool < |s.pools|
  {
    match l
    case Callback => s.(callback := x)
    case Queue(p) => Share(s, p, s.pools[p].(lock := x))
  }

  function SetTeardown(s: State, p: nat, x: Teardown): State
    requires p < |s.pools|
  {
    Share(s, p, s.pools[p].(teardown := x))
  }

  // ----- who holds and who waits -----

  /** Thread id, in state x, is inside the section that lock l protects. */
  predicate ThreadHolds(x: Thread, id: ThreadId, l: LockName)
  {
    match l
    case Callback => x.base.InCallback?
    case Queue(q) =>
      || ((x.call.InPush? || x.call.Pushed?) && x.call.pool == q)
      || (id.Worker? && id.pool == q && (x.base.InSection? || x.base.Holding? || x.base.Leaving?))
  }

  predicate Holds(s: State, id: ThreadId, l: LockName)
  {
    if id.Destructor? then
      id.pool < |s.pools| && l == Queue(id.pool)
        && (s.pools[id.pool].teardown.InLock? || s.pools[id.pool].teardown.StopSet?)
    else id in s.threads && ThreadHolds(s.threads[id], id, l)
  }

  predicate ThreadWaits(x: Thread, id: ThreadId, l: LockName)
  {
    if x.call.WantPush? then l == Queue(x.call.pool)
    else if x.base.WantCallback? then l == Callback
    else x.base.WantQueue? && id.Worker? && l == Queue(id.pool)
  }

  predicate Waits(s: State, id: ThreadId, l: LockName)
  {
    if id.Destructor? then
      id.pool < |s.pools| && l == Queue(id.pool) && s.pools[id.pool].teardown.WantLock?
    else id in s.threads && ThreadWaits(s.threads[id], id, l)
  }

  // ----- steps -----

  datatype Move =
    | Acquire(id: ThreadId, l: LockName)
    | Decide(id: ThreadId)                     // test the wait condition: sleep, leave, or take a task
    | Unlock(id: ThreadId)                     // leave the locked section entered last
    | Ask(id: ThreadId)                        // its task is about to call the callback
    | Finish(id: ThreadId)                     // its task returns
    | StartCall(id: ThreadId, p: nat, task: Task)
    | Push(id: ThreadId)                       // append to the queue, or throw
    | NotifyOne(id: ThreadId, w: nat)
    | NotifyNone(id: ThreadId)
    | Spurious(p: nat, w: nat)
    | Destroy(p: nat)                          // somebody calls the destructor
    | Advance(p: nat)                          // the destructor sets stop, unlocks, notifies all, joins, returns

  predicate AsleepAt(s: State, p: nat, w: nat)
  {
    Worker(p, w) in s.threads && s.threads[Worker(p, w)].base.Asleep?
  }

  ghost predicate NobodyAsleep(s: State, p: nat)
  {
    forall w: nat :: !AsleepAt(s, p, w)
  }

  predicate PoolOf(s: State, x: Thread)
  {
    !x.call.NoCall? && x.call.pool < |s.pools|
  }

  ghost predicate Enabled(s: State, m: Move)
  {
    match m
    case Acquire(id, l) => Waits(s, id, l) && LockOf(s, l) == Free && (l.Queue? ==> l.pool < |s.pools|)
    case Decide(id) => id.Worker? && id in s.threads && id.pool < |s.pools| && s.threads[id].base.InSection?
    case Unlock(id) =>
      && id in s.threads
      && var x := s.threads[id];
      || (x.call.Pushed? && PoolOf(s, x))
      || (x.call.NoCall? && x.base.InCallback?)
      || (x.call.NoCall? && id.Worker? && id.pool < |s.pools| && (x.base.Holding? || x.base.Leaving?))
    case Ask(id) => id in s.threads && s.threads[id].base.Working? && s.threads[id].call.NoCall?
    case Finish(id) =>
      id.Worker? && id in s.threads && id.pool < |s.pools| && s.threads[id].base.Working? && s.threads[id].call.NoCall?
    case StartCall(id, p, _) =>
      && id in s.threads && p < |s.pools|
      && var x := s.threads[id];
      x.call.NoCall? && (x.base.Application? || x.base.Working? || x.base.InCallback?)
    case Push(id) => id in s.threads && s.threads[id].call.InPush? && PoolOf(s, s.threads[id])
    case NotifyOne(id, w) =>
      id in s.threads && s.threads[id].call.ToNotify? && PoolOf(s, s.threads[id])
        && AsleepAt(s, s.threads[id].call.pool, w)
    case NotifyNone(id) =>
      id in s.threads && s.threads[id].call.ToNotify? && PoolOf(s, s.threads[id])
        && NobodyAsleep(s, s.threads[id].call.pool)
    case Spurious(p, w) => AsleepAt(s, p, w)
    case Destroy(p) => p < |s.pools| && s.pools[p].teardown.NotCalled?
    case Advance(p) =>
      && p < |s.pools|
      && match s.pools[p].teardown
         case InLock => true
         case StopSet => true
         case ToNotifyAll => true
         case Joining(k) =>
           k < s.pools[p].size ==> Worker(p, k) in s.threads && s.threads[Worker(p, k)].base.Gone?
         case _ => false
  }

  function Woken(threads: map<ThreadId, Thread>, p: nat): map<ThreadId, Thread>
  {
    map id | id in threads ::
      if id.Worker? && id.pool == p && threads[id].base.Asleep? then threads[id].(base := WantQueue) else threads[id]
  }

  ghost function ApplyDecide(s: State, id: ThreadId): State
    requires Enabled(s, Decide(id))
  {
    var pool := s.pools[id.pool];
    if pool.queue != [] then
      var popped := pool.(queue := pool.queue[1..], dequeued := pool.dequeued + [pool.queue[0]]);
      Share(Rebase(s, id, Holding(pool.queue[0])), id.pool, popped)
    else if pool.Stop() then Rebase(s, id, Leaving)
    else Share(Rebase(s, id, Asleep), id.pool, pool.(lock := Free))
  }

  ghost function ApplyPush(s: State, id: ThreadId): State
    requires Enabled(s, Push(id))
  {
    var call := s.threads[id].call;
    var pool := s.pools[call.pool];
    if pool.Stop() then Share(Recall(s, id, NoCall), call.pool, pool.(lock := Free))
    else
      var fuller := pool.(queue := pool.queue + [call.task], accepted := pool.accepted + [call.task]);
      Share(Recall(s, id, Pushed(call.pool)), call.pool, fuller)
  }

  ghost function ApplyAcquire(s: State, id: ThreadId, l: LockName): State
    requires Enabled(s, Acquire(id, l))
  {
    if id.Destructor? then Share(s, id.pool, s.pools[id.pool].(teardown := InLock, lock := HeldBy(id)))
    else
      var x := s.threads[id];
      SetLock(
        if x.call.WantPush? then Recall(s, id, InPush(x.call.pool, x.call.task))
        else if x.base.WantCallback? then Rebase(s, id, InCallback(x.base.task))
        else Rebase(s, id, InSection), l, HeldBy(id))
  }

  ghost function ApplyUnlock(s: State, id: ThreadId): State
    requires Enabled(s, Unlock(id))
  {
    var x := s.threads[id];
    if x.call.Pushed? then SetLock(Recall(s, id, ToNotify(x.call.pool)), Queue(x.call.pool), Free)
    else if x.base.InCallback? then SetLock(Rebase(s, id, Working(x.base.task)), Callback, Free)
    else SetLock(Rebase(s, id, if x.base.Holding? then Working(x.base.task) else Gone), Queue(id.pool), Free)
  }

  ghost function ApplyAdvance(s: State, p: nat): State
    requires Enabled(s, Advance(p))
  {
    var pool := s.pools[p];
    match pool.teardown
    case InLock => SetTeardown(s, p, StopSet)
    case StopSet => Share(s, p, pool.(teardown := ToNotifyAll, lock := Free))
    case ToNotifyAll => SetTeardown(s.(threads := Woken(s.threads, p)), p, Joining(0))
    case Joining(k) => SetTeardown(s, p, if k < pool.size then Joining(k + 1) else Returned)
  }

  ghost function Apply(s: State, m: Move): State
    requires Enabled(s, m)
  {
    match m
    case Acquire(id, l) => ApplyAcquire(s, id, l)
    case Decide(id) => ApplyDecide(s, id)
    case Unlock(id) => ApplyUnlock(s, id)
    case Ask(id) => Rebase(s, id, WantCallback(s.threads[id].base.task))
    case Finish(id) =>
      var pool := s.pools[id.pool];
      Share(Rebase(s, id, WantQueue), id.pool, pool.(finished := pool.finished + [s.threads[id].base.task]))
    case StartCall(id, p, task) => Recall(s, id, WantPush(p, task))
    case Push(id) => ApplyPush(s, id)
    case NotifyOne(id, w) => Rebase(Recall(s, id, NoCall), Worker(s.threads[id].call.pool, w), WantQueue)
    case NotifyNone(id) => Recall(s, id, NoCall)
    case Spurious(p, w) => Rebase(s, Worker(p, w), WantQueue)
    case Destroy(p) => SetTeardown(s, p, WantLock)
    case Advance(p) => ApplyAdvance(s, p)
  }

  ghost predicate Path(s: State, moves: seq<Move>, t: State)
    decreases |moves|
  {
    if moves == [] then s == t else Enabled(s, moves[0]) && Path(Apply(s, moves[0]), moves[1..], t)
  }

  // ----- the invariant of the threads and their locks -----

  /** Only tasks, callbacks and application threads call enqueue, and only workers run tasks. */
  predicate WellFormedThread(x: Thread, id: ThreadId, pools: nat)
  {
    && (!x.call.NoCall? ==> x.call.pool < pools && (x.base.Working? || x.base.InCallback? || x.base.Application?))
    && (id.App? <==> x.base.Application?)
  }

  ghost predicate WellFormed(s: State)
  {
    && Population(s)
    && forall id | id in s.threads :: WellFormedThread(s.threads[id], id, |s.pools|)
  }

  /** Each lock is held exactly by the thread that is inside its locked section. */
  predicate LockExact(s: State, id: ThreadId, l: LockName)
  {
    Holds(s, id, l) <==> LockOf(s, l) == HeldBy(id)
  }

  ghost predicate LocksExact(s: State)
  {
    forall id, l :: LockExact(s, id, l)
  }

  lemma WellFormedRebase(s: State, id: ThreadId, base: Base)
    requires WellFormed(s) && id in s.threads
    requires WellFormedThread(s.threads[id].(base := base), id, |s.pools|)
    ensures WellFormed(Rebase(s, id, base))
  {
    assert Rebase(s, id, base).threads.Keys == s.threads.Keys;
  }

  lemma WellFormedRecall(s: State, id: ThreadId, call: Call)
    requires WellFormed(s) && id in s.threads
    requires WellFormedThread(s.threads[id].(call := call), id, |s.pools|)
    ensures WellFormed(Recall(s, id, call))
  {
    assert Recall(s, id, call).threads.Keys == s.threads.Keys;
  }

  lemma WellFormedShare(s: State, p: nat, x: Shared)
    requires WellFormed(s) && p < |s.pools| && x.size == s.pools[p].size
    ensures WellFormed(Share(s, p, x))
  {
  }

  lemma WellFormedWoken(s: State, p: nat)
    requires WellFormed(s)
    ensures WellFormed(s.(threads := Woken(s.threads, p)))
  {
    assert Woken(s.threads, p).Keys == s.threads.Keys;
  }

  lemma AcquireWellFormed(s: State, id: ThreadId, l: LockName)
    requires WellFormed(s) && Enabled(s, Acquire(id, l))
    ensures WellFormed(Apply(s, Acquire(id, l)))
  {
    if id.Destructor? {
      WellFormedShare(s, id.pool, s.pools[id.pool].(teardown := InLock, lock := HeldBy(id)));
    } else {
      var x := s.threads[id];
      assert WellFormedThread(x, id, |s.pools|);
      if x.call.WantPush? {
        WellFormedRecall(s, id, InPush(x.call.pool, x.call.task));
      } else {
        WellFormedRebase(s, id, if x.base.WantCallback? then InCallback(x.base.task) else InSection);
      }
    }
  }

  lemma DecideWellFormed(s: State, id: ThreadId)
    requires WellFormed(s) && Enabled(s, Decide(id))
    ensures WellFormed(Apply(s, Decide(id)))
  {
    var pool := s.pools[id.pool];
    assert WellFormedThread(s.threads[id], id, |s.pools|);
    WellFormedRebase(
      s, id, if pool.queue != [] then Holding(pool.queue[0]) else if pool.Stop() then Leaving else Asleep);
  }

  lemma UnlockWellFormed(s: State, id: ThreadId)
    requires WellFormed(s) && Enabled(s, Unlock(id))
    ensures WellFormed(Apply(s, Unlock(id)))
  {
    var x := s.threads[id];
    assert WellFormedThread(x, id, |s.pools|);
    if x.call.Pushed? {
      WellFormedRecall(s, id, ToNotify(x.call.pool));
    } else {
      WellFormedRebase(s, id, if x.base.Leaving? then Gone else Working(x.base.task));
    }
  }

  lemma PushWellFormed(s: State, id: ThreadId)
    requires WellFormed(s) && Enabled(s, Push(id))
    ensures WellFormed(Apply(s, Push(id)))
  {
    var call := s.threads[id].call;
    assert WellFormedThread(s.threads[id], id, |s.pools|);
    WellFormedRecall(s, id, if s.pools[call.pool].Stop() then NoCall else Pushed(call.pool));
  }

  lemma NotifyWellFormed(s: State, m: Move)
    requires WellFormed(s) && Enabled(s, m) && (m.NotifyOne? || m.NotifyNone?)
    ensures WellFormed(Apply(s, m))
  {
    assert WellFormedThread(s.threads[m.id], m.id, |s.pools|);
    WellFormedRecall(s, m.id, NoCall);
    if m.NotifyOne? {
      var id := Worker(s.threads[m.id].call.pool, m.w);
      assert WellFormedThread(s.threads[id], id, |s.pools|);
      WellFormedRebase(Recall(s, m.id, NoCall), id, WantQueue);
    }
  }

  lemma AdvanceWellFormed(s: State, p: nat)
    requires WellFormed(s) && Enabled(s, Advance(p))
    ensures WellFormed(Apply(s, Advance(p)))
  {
    WellFormedWoken(s, p);
  }

  lemma OtherWellFormed(s: State, m: Move)
    requires WellFormed(s) && Enabled(s, m) && (m.Ask? || m.Finish? || m.StartCall? || m.Spurious? || m.Destroy?)
    ensures WellFormed(Apply(s, m))
  {
    match m
    case Ask(id) => WellFormedRebase(s, id, WantCallback(s.threads[id].base.task));
    case Finish(id) => WellFormedRebase(s, id, WantQueue);
    case StartCall(id, p, task) => WellFormedRecall(s, id, WantPush(p, task));
    case Spurious(p, w) =>
      assert WellFormedThread(s.threads[Worker(p, w)], Worker(p, w), |s.pools|);
      WellFormedRebase(s, Worker(p, w), WantQueue);
    case _ =>
  }

  lemma StepWellFormed(s: State, m: Move)
    requires WellFormed(s) && Enabled(s, m)
    ensures WellFormed(Apply(s, m))
  {
    match m
    case Acquire(id, l) => AcquireWellFormed(s, id, l);
    case Decide(id) => DecideWellFormed(s, id);
    case Unlock(id) => UnlockWellFormed(s, id);
    case Push(id) => PushWellFormed(s, id);
    case NotifyOne(_, _) => NotifyWellFormed(s, m);
    case NotifyNone(_) => NotifyWellFormed(s, m);
    case Advance(p) => AdvanceWellFormed(s, p);
    case _ => OtherWellFormed(s, m);
  }

  /** A destructor takes the lock of its pool. */
  lemma LockTakenByDestructor(s: State, m: Move, id: ThreadId, l: LockName)
    requires WellFormed(s) && LocksExact(s) && Enabled(s, m) && m.Acquire? && m.id.Destructor?
    ensures LockExact(Apply(s, m), id, l)
  {
    assert LockExact(s, id, l);
  }

  lemma LockTaken(s: State, m: Move, id: ThreadId, l: LockName)
    requires WellFormed(s) && LocksExact(s) && Enabled(s, m) && m.Acquire? && !m.id.Destructor?
    ensures LockExact(Apply(s, m), id, l)
  {
    assert LockExact(s, id, l);
  }

  lemma LockKept(s: State, m: Move, id: ThreadId, l: LockName)
    requires WellFormed(s) && LocksExact(s) && Enabled(s, m)
    requires m.Ask? || m.StartCall? || m.NotifyOne? || m.NotifyNone? || m.Spurious? || m.Destroy?
    ensures LockExact(Apply(s, m), id, l)
  {
    assert LockExact(s, id, l);
  }

  lemma LockKeptByFinish(s: State, m: Move, id: ThreadId, l: LockName)
    requires WellFormed(s) && LocksExact(s) && Enabled(s, m) && m.Finish?
    ensures LockExact(Apply(s, m), id, l)
  {
    assert LockExact(s, id, l);
  }

  lemma LockDecided(s: State, m: Move, id: ThreadId, l: LockName)
    requires WellFormed(s) && LocksExact(s) && Enabled(s, m) && m.Decide?
    ensures LockExact(Apply(s, m), id, l)
  {
    assert LockExact(s, id, l);
    assert LockExact(s, m.id, Queue(m.id.pool));
  }

  lemma LockPushed(s: State, m: Move, id: ThreadId, l: LockName)
    requires WellFormed(s) && LocksExact(s) && Enabled(s, m) && m.Push?
    ensures LockExact(Apply(s, m), id, l)
  {
    assert LockExact(s, id, l);
    assert LockExact(s, m.id, Queue(s.threads[m.id].call.pool));
  }

  lemma LockUnlocked(s: State, m: Move, id: ThreadId, l: LockName)
    requires WellFormed(s) && LocksExact(s) && Enabled(s, m) && m.Unlock?
    ensures LockExact(Apply(s, m), id, l)
  {
    assert LockExact(s, id, l);
    var x := s.threads[m.id];
    var released :=
      if x.call.Pushed? then Queue(x.call.pool) else if x.base.InCallback? then Callback else Queue(m.id.pool);
    assert LockExact(s, m.id, released);
  }

  lemma LockAdvanced(s: State, m: Move, id: ThreadId, l: LockName)
    requires WellFormed(s) && LocksExact(s) && Enabled(s, m) && m.Advance?
    ensures LockExact(Apply(s, m), id, l)
  {
    assert LockExact(s, id, l);
    if s.pools[m.p].teardown.StopSet? {
      assert LockExact(s, Destructor(m.p), Queue(m.p));
    }
  }

  lemma StepLocksExact(s: State, m: Move)
    requires WellFormed(s) && LocksExact(s) && Enabled(s, m)
    ensures LocksExact(Apply(s, m))
  {
    forall id, l
      ensures LockExact(Apply(s, m), id, l)
    {
      match m
      case Acquire(taker, _) =>
        if taker.Destructor? {
          LockTakenByDestructor(s, m, id, l);
        } else {
          LockTaken(s, m, id, l);
        }
      case Finish(_) => LockKeptByFinish(s, m, id, l);
      case Decide(_) => LockDecided(s, m, id, l);
      case Push(_) => LockPushed(s, m, id, l);
      case Unlock(_) => LockUnlocked(s, m, id, l);
      case Advance(_) => LockAdvanced(s, m, id, l);
      case _ => LockKept(s, m, id, l);
    }
  }

  // ----- refinement of the pool machine -----

  function Stage(base: Base): PM.Worker
  {
    match base
    case WantQueue => PM.Ready
    case InSection => PM.Ready
    case Asleep => PM.Parked
    case Holding(task) => PM.Running(task)
    case Working(task) => PM.Running(task)
    case WantCallback(task) => PM.Running(task)
    case InCallback(task) => PM.Running(task)
    case Leaving => PM.Exited
    case Gone => PM.Exited
    case Application => PM.Exited
  }

  function PhaseOf(teardown: Teardown): PM.Phase
  {
    match teardown
    case StopSet => PM.Stopping
    case ToNotifyAll => PM.Stopping
    case Joining(k) => PM.Joining(k)
    case Returned => PM.Closed
    case _ => PM.Open
  }

  predicate Owes(x: Thread, p: nat)
  {
    (x.call.Pushed? || x.call.ToNotify?) && x.call.pool == p
  }

  /** The threads that have pushed into pool p and have not yet notified. */
  function Owing(s: State, p: nat): set<ThreadId>
  {
    set id | id in s.threads && Owes(s.threads[id], p)
  }

  /** Pool p of the process, seen as a pool whose locked sections are single steps. */
  ghost function Abs(s: State, p: nat): PM.Pool
    requires Population(s) && p < |s.pools|
  {
    AbsOf(Stages(s, p), s.pools[p], |Owing(s, p)|)
  }

  ghost function Stages(s: State, p: nat): seq<PM.Worker>
    requires Population(s) && p < |s.pools|
  {
    seq(s.pools[p].size, i requires 0 <= i < s.pools[p].size => Stage(s.threads[Worker(p, i)].base))
  }

  ghost function AbsOf(workers: seq<PM.Worker>, pool: Shared, notifies: nat): PM.Pool
  {
    PM.Pool(workers, pool.queue, notifies, PhaseOf(pool.teardown), pool.accepted, pool.dequeued, pool.finished)
  }

  lemma AbsRebase(s: State, id: ThreadId, base: Base, p: nat)
    requires Population(s) && id in s.threads && p < |s.pools|
    ensures Population(Rebase(s, id, base))
    ensures Abs(Rebase(s, id, base), p) ==
            if id.Worker? && id.pool == p then PM.Move(Abs(s, p), id.index, Stage(base)) else Abs(s, p)
  {
    var t := Rebase(s, id, base);
    assert t.threads.Keys == s.threads.Keys;
    assert Owing(t, p) == Owing(s, p);
    assert Stages(t, p) == if id.Worker? && id.pool == p then Stages(s, p)[id.index := Stage(base)] else Stages(s, p);
  }

  /** How a call that begins or ends changes the number of pending notifications. */
  lemma OwingRecall(s: State, id: ThreadId, call: Call, p: nat)
    requires id in s.threads
    ensures var before, after := Owes(s.threads[id], p), Owes(s.threads[id].(call := call), p);
            && (before && !after ==> |Owing(s, p)| > 0)
            && |Owing(Recall(s, id, call), p)| ==
                 |Owing(s, p)| + (if after && !before then 1 else 0) - (if before && !after then 1 else 0)
  {
    var t := Recall(s, id, call);
    var before, after := Owes(s.threads[id], p), Owes(t.threads[id], p);
    if before == after {
      assert Owing(t, p) == Owing(s, p);
    } else if after {
      assert Owing(t, p) == Owing(s, p) + {id};
    } else {
      assert Owing(s, p) == Owing(t, p) + {id};
    }
  }

  lemma AbsRecall(s: State, id: ThreadId, call: Call, p: nat)
    requires Population(s) && id in s.threads && p < |s.pools|
    ensures Population(Recall(s, id, call))
    ensures var before, after := Owes(s.threads[id], p), Owes(s.threads[id].(call := call), p);
            && (before && !after ==> Abs(s, p).notifies > 0)
            && Abs(Recall(s, id, call), p) == Abs(s, p).(notifies :=
                 Abs(s, p).notifies + (if after && !before then 1 else 0) - (if before && !after then 1 else 0))
  {
    var t := Recall(s, id, call);
    assert t.threads.Keys == s.threads.Keys;
    OwingRecall(s, id, call, p);
    assert Stages(t, p) == Stages(s, p);
  }

  lemma AbsShare(s: State, q: nat, x: Shared, p: nat)
    requires Population(s) && q < |s.pools| && x.size == s.pools[q].size && p < |s.pools|
    ensures Population(Share(s, q, x))
    ensures Abs(Share(s, q, x), p) == if p == q then AbsOf(Stages(s, p), x, |Owing(s, p)|) else Abs(s, p)
  {
    var t := Share(s, q, x);
    assert Owing(t, p) == Owing(s, p);
    assert Stages(t, p) == Stages(s, p);
  }

  /** The step of pool p, if any, that a move amounts to. */
  ghost function Coarse(s: State, m: Move, p: nat): seq<PM.Action>
    requires Enabled(s, m) && p < |s.pools|
  {
    match m
    case Decide(id) => if id.pool == p then [PM.Section(id.index)] else []
    case Finish(id) => if id.pool == p then [PM.Finish(id.index)] else []
    case Push(id) =>
      var call := s.threads[id].call;
      if call.pool != p then []
      else if s.pools[p].Stop() then [PM.Refuse(call.task)] else [PM.Enqueue(call.task)]
    case NotifyOne(id, w) => if s.threads[id].call.pool == p then [PM.NotifyOne(w)] else []
    case NotifyNone(id) => if s.threads[id].call.pool == p then [PM.NotifyNone] else []
    case Spurious(q, w) => if p == q then [PM.Spurious(w)] else []
    case Advance(q) =>
      if p != q || s.pools[p].teardown.StopSet? then []
      else if s.pools[p].teardown.InLock? then [PM.SetStop]
      else if s.pools[p].teardown.ToNotifyAll? then [PM.NotifyAll]
      else [PM.Join]
    case _ => []
  }

  ghost predicate Refines(s: State, m: Move, p: nat)
    requires Population(s) && Enabled(s, m) && p < |s.pools|
  {
    Population(Apply(s, m)) && |Apply(s, m).pools| == |s.pools| && Apply(s, m).pools[p].size == s.pools[p].size &&
    PM.Path(Abs(s, p), Coarse(s, m, p), Abs(Apply(s, m), p))
  }

  lemma SingleStep(s: PM.Pool, a: PM.Action, t: PM.Pool)
    requires PM.Enabled(s, a) && PM.Apply(s, a) == t
    ensures PM.Path(s, [a], t)
  {
    assert PM.Path(t, [a][1..], t);
  }

  lemma RefineAcquire(s: State, m: Move, p: nat)
    requires WellFormed(s) && Enabled(s, m) && p < |s.pools| && m.Acquire?
    ensures Refines(s, m, p)
  {
    var id, l := m.id, m.l;
    if id.Destructor? {
      AbsShare(s, id.pool, s.pools[id.pool].(teardown := InLock, lock := HeldBy(id)), p);
    } else {
      var x := s.threads[id];
      var t;
      if x.call.WantPush? {
        t := Recall(s, id, InPush(x.call.pool, x.call.task));
        AbsRecall(s, id, InPush(x.call.pool, x.call.task), p);
      } else {
        var base := if x.base.WantCallback? then InCallback(x.base.task) else InSection;
        t := Rebase(s, id, base);
        AbsRebase(s, id, base, p);
      }
      assert Abs(t, p) == Abs(s, p);
      if l.Queue? {
        AbsShare(t, l.pool, t.pools[l.pool].(lock := HeldBy(id)), p);
      }
    }
  }

  /** A thread leaves the section of enqueue. */
  lemma RefinePushed(s: State, id: ThreadId, p: nat)
    requires WellFormed(s) && Enabled(s, Unlock(id)) && p < |s.pools| && s.threads[id].call.Pushed?
    ensures Refines(s, Unlock(id), p)
  {
    var q := s.threads[id].call.pool;
    var t := Recall(s, id, ToNotify(q));
    AbsRecall(s, id, ToNotify(q), p);
    AbsShare(t, q, t.pools[q].(lock := Free), p);
  }

  /** A worker leaves its queue section or its callback. */
  lemma RefineUnlock(s: State, id: ThreadId, p: nat)
    requires WellFormed(s) && Enabled(s, Unlock(id)) && p < |s.pools| && !s.threads[id].call.Pushed?
    ensures Refines(s, Unlock(id), p)
  {
    var x := s.threads[id];
    var base := if x.base.Leaving? then Gone else Working(x.base.task);
    var t := Rebase(s, id, base);
    AbsRebase(s, id, base, p);
    assert WellFormedThread(x, id, |s.pools|);
    assert Abs(t, p) == Abs(s, p);
    if !x.base.InCallback? {
      AbsShare(t, id.pool, t.pools[id.pool].(lock := Free), p);
    }
  }

  /** A worker takes the first task of its queue. */
  lemma RefineTake(s: State, id: ThreadId, p: nat)
    requires WellFormed(s) && Enabled(s, Decide(id)) && p < |s.pools| && s.pools[id.pool].queue != []
    ensures Refines(s, Decide(id), p)
  {
    var pool := s.pools[id.pool];
    var base := Holding(pool.queue[0]);
    AbsRebase(s, id, base, p);
    AbsShare(Rebase(s, id, base), id.pool,
             pool.(queue := pool.queue[1..], dequeued := pool.dequeued + [pool.queue[0]]), p);
    if id.pool == p {
      SingleStep(Abs(s, p), PM.Section(id.index), Abs(Apply(s, Decide(id)), p));
    }
  }

  /** A worker that finds its queue empty leaves its loop or goes to sleep. */
  lemma RefineDecide(s: State, id: ThreadId, p: nat)
    requires WellFormed(s) && Enabled(s, Decide(id)) && p < |s.pools| && s.pools[id.pool].queue == []
    ensures Refines(s, Decide(id), p)
  {
    var pool := s.pools[id.pool];
    var base := if pool.Stop() then Leaving else Asleep;
    AbsRebase(s, id, base, p);
    AbsShare(Rebase(s, id, base), id.pool, pool.(lock := Free), p);
    if id.pool == p {
      SingleStep(Abs(s, p), PM.Section(id.index), Abs(Apply(s, Decide(id)), p));
    }
  }

  lemma RefineFinish(s: State, m: Move, p: nat)
    requires WellFormed(s) && Enabled(s, m) && p < |s.pools| && m.Finish?
    ensures Refines(s, m, p)
  {
    var id := m.id;
    var pool := s.pools[id.pool];
    AbsRebase(s, id, WantQueue, p);
    AbsShare(Rebase(s, id, WantQueue), id.pool, pool.(finished := pool.finished + [s.threads[id].base.task]), p);
    if id.pool == p {
      SingleStep(Abs(s, p), PM.Finish(id.index), Abs(Apply(s, m), p));
    }
  }

  lemma RefinePush(s: State, m: Move, p: nat)
    requires WellFormed(s) && Enabled(s, m) && p < |s.pools| && m.Push?
    ensures Refines(s, m, p)
  {
    var id := m.id;
    var call := s.threads[id].call;
    var pool := s.pools[call.pool];
    var next, after := NoCall, pool.(lock := Free);
    if !pool.Stop() {
      next, after := Pushed(call.pool),
        pool.(queue := pool.queue + [call.task], accepted := pool.accepted + [call.task]);
    }
    AbsRecall(s, id, next, p);
    AbsShare(Recall(s, id, next), call.pool, after, p);
    assert Apply(s, m) == Share(Recall(s, id, next), call.pool, after);
    if call.pool == p {
      SingleStep(Abs(s, p), if pool.Stop() then PM.Refuse(call.task) else PM.Enqueue(call.task), Abs(Apply(s, m), p));
    }
  }

  lemma RefineNotify(s: State, m: Move, p: nat)
    requires WellFormed(s) && Enabled(s, m) && p < |s.pools| && (m.NotifyOne? || m.NotifyNone?)
    ensures Refines(s, m, p)
  {
    var q := s.threads[m.id].call.pool;
    AbsRecall(s, m.id, NoCall, p);
    if m.NotifyOne? {
      AbsRebase(Recall(s, m.id, NoCall), Worker(q, m.w), WantQueue, p);
    } else if p == q {
      forall i | 0 <= i < s.pools[p].size
        ensures !Abs(s, p).workers[i].Parked?
      {
        assert !AsleepAt(s, p, i);
      }
    }
    if p == q {
      SingleStep(Abs(s, p), Coarse(s, m, p)[0], Abs(Apply(s, m), p));
    }
  }

  lemma RefineSpurious(s: State, q: nat, w: nat, p: nat)
    requires WellFormed(s) && Enabled(s, Spurious(q, w)) && p < |s.pools|
    ensures Refines(s, Spurious(q, w), p)
  {
    AbsRebase(s, Worker(q, w), WantQueue, p);
    if p == q {
      SingleStep(Abs(s, p), PM.Spurious(w), Abs(Apply(s, Spurious(q, w)), p));
    }
  }

  lemma RefineDestroy(s: State, q: nat, p: nat)
    requires WellFormed(s) && Enabled(s, Destroy(q)) && p < |s.pools|
    ensures Refines(s, Destroy(q), p)
  {
    AbsShare(s, q, s.pools[q].(teardown := WantLock), p);
  }

  lemma RefineOther(s: State, m: Move, p: nat)
    requires WellFormed(s) && Enabled(s, m) && p < |s.pools| && (m.Ask? || m.StartCall?)
    ensures Refines(s, m, p)
  {
    match m
    case Ask(id) => AbsRebase(s, id, WantCallback(s.threads[id].base.task), p);
    case StartCall(id, q, task) => AbsRecall(s, id, WantPush(q, task), p);
  }

  lemma AbsWoken(s: State, q: nat, p: nat)
    requires Population(s) && q < |s.pools| && p < |s.pools|
    ensures var t := s.(threads := Woken(s.threads, q));
            && Population(t)
            && Abs(t, p) == if p == q then Abs(s, p).(workers := PM.Woken(Abs(s, p).workers)) else Abs(s, p)
  {
    var t := s.(threads := Woken(s.threads, q));
    assert t.threads.Keys == s.threads.Keys;
    assert Owing(t, p) == Owing(s, p);
    assert Stages(t, p) == if p == q then PM.Woken(Stages(s, p)) else Stages(s, p);
  }

  lemma RefineNotifyAll(s: State, q: nat, p: nat)
    requires WellFormed(s) && Enabled(s, Advance(q)) && s.pools[q].teardown.ToNotifyAll? && p < |s.pools|
    ensures Refines(s, Advance(q), p)
  {
    AbsWoken(s, q, p);
    AbsShare(s.(threads := Woken(s.threads, q)), q, s.pools[q].(teardown := Joining(0)), p);
    if p == q {
      SingleStep(Abs(s, p), PM.NotifyAll, Abs(Apply(s, Advance(q)), p));
    }
  }

  /** The destructor sets stop, or gives back the queue lock. */
  lemma RefineStop(s: State, q: nat, p: nat)
    requires WellFormed(s) && Enabled(s, Advance(q)) && p < |s.pools|
    requires s.pools[q].teardown.InLock? || s.pools[q].teardown.StopSet?
    ensures Refines(s, Advance(q), p)
  {
    var pool := s.pools[q];
    var next :=
      if pool.teardown.InLock? then pool.(teardown := StopSet) else pool.(teardown := ToNotifyAll, lock := Free);
    AbsShare(s, q, next, p);
    if p == q && pool.teardown.InLock? {
      SingleStep(Abs(s, p), PM.SetStop, Abs(Apply(s, Advance(q)), p));
    }
  }

  lemma JoinEnabled(s: State, p: nat)
    requires WellFormed(s) && Enabled(s, Advance(p)) && p < |s.pools| && s.pools[p].teardown.Joining?
    ensures PM.Enabled(Abs(s, p), PM.Join)
  {
    var k := s.pools[p].teardown.joined;
    assert Abs(s, p).phase == PM.Joining(k);
    assert k < s.pools[p].size ==> Abs(s, p).workers[k] == Stage(s.threads[Worker(p, k)].base);
  }

  /** The destructor joins a worker, or returns: a step of its own pool. */
  lemma RefineJoin(s: State, p: nat)
    requires WellFormed(s) && Enabled(s, Advance(p)) && p < |s.pools| && s.pools[p].teardown.Joining?
    ensures Refines(s, Advance(p), p)
  {
    var pool := s.pools[p];
    var k := pool.teardown.joined;
    var next := pool.(teardown := if k < pool.size then Joining(k + 1) else Returned);
    JoinEnabled(s, p);
    AbsShare(s, p, next, p);
    assert Apply(s, Advance(p)) == Share(s, p, next);
    SingleStep(Abs(s, p), PM.Join, Abs(Share(s, p, next), p));
  }

  /** And no step of any other. */
  lemma RefineJoinElsewhere(s: State, q: nat, p: nat)
    requires WellFormed(s) && Enabled(s, Advance(q)) && p < |s.pools| && p != q && s.pools[q].teardown.Joining?
    ensures Refines(s, Advance(q), p)
  {
    var pool := s.pools[q];
    var k := pool.teardown.joined;
    AbsShare(s, q, pool.(teardown := if k < pool.size then Joining(k + 1) else Returned), p);
  }

  lemma StepRefines(s: State, m: Move, p: nat)
    requires WellFormed(s) && Enabled(s, m) && p < |s.pools|
    ensures Refines(s, m, p)
  {
    match m
    case Acquire(_, _) => RefineAcquire(s, m, p);
    case Unlock(id) =>
      if s.threads[id].call.Pushed? {
        RefinePushed(s, id, p);
      } else {
        RefineUnlock(s, id, p);
      }
    case Decide(id) =>
      if s.pools[id.pool].queue != [] {
        RefineTake(s, id, p);
      } else {
        RefineDecide(s, id, p);
      }
    case Finish(_) => RefineFinish(s, m, p);
    case Push(_) => RefinePush(s, m, p);
    case NotifyOne(_, _) => RefineNotify(s, m, p);
    case NotifyNone(_) => RefineNotify(s, m, p);
    case Advance(q) =>
      if s.pools[q].teardown.ToNotifyAll? {
        RefineNotifyAll(s, q, p);
      } else if s.pools[q].teardown.Joining? && p == q {
        RefineJoin(s, p);
      } else if s.pools[q].teardown.Joining? {
        RefineJoinElsewhere(s, q, p);
      } else {
        RefineStop(s, q, p);
      }
    case Spurious(q, w) => RefineSpurious(s, q, w, p);
    case Destroy(q) => RefineDestroy(s, q, p);
    case _ => RefineOther(s, m, p);
  }

  lemma InitialInv(s: State)
    requires Initial(s)
    ensures WellFormed(s) && LocksExact(s)
    ensures forall p | 0 <= p < |s.pools| :: Abs(s, p) == PM.Init(s.pools[p].size)
  {
    forall id, l ensures LockExact(s, id, l) {
      if l.Queue? && l.pool < |s.pools| {
        assert s.pools[l.pool].lock.Free?;
      }
      if id.Destructor? && id.pool < |s.pools| {
        assert s.pools[id.pool].teardown.NotCalled?;
      }
    }
    forall p | 0 <= p < |s.pools| ensures Abs(s, p) == PM.Init(s.pools[p].size) {
      assert Owing(s, p) == {};
      assert s.pools[p].teardown.NotCalled?;
    }
  }

  /** Every interleaving of lock operations is, for each pool, an interleaving of whole locked sections, with the
      same queue and the same histories: the theorems about PoolMachine hold at this level too. */
  lemma {:induction false} PathRefines(s: State, moves: seq<Move>, t: State, p: nat) returns (acts: seq<PM.Action>)
    requires WellFormed(s) && LocksExact(s) && Path(s, moves, t) && p < |s.pools|
    ensures WellFormed(t) && LocksExact(t) && |t.pools| == |s.pools| && t.pools[p].size == s.pools[p].size
    ensures PM.Path(Abs(s, p), acts, Abs(t, p))
    decreases |moves|
  {
    acts := [];
    if moves != [] {
      var mid := Apply(s, moves[0]);
      StepWellFormed(s, moves[0]);
      StepLocksExact(s, moves[0]);
      StepRefines(s, moves[0], p);
      var rest := PathRefines(mid, moves[1..], t, p);
      PM.PathAppend(Abs(s, p), Coarse(s, moves[0], p), Abs(mid, p), rest, Abs(t, p));
      acts := Coarse(s, moves[0], p) + rest;
    }
  }

  lemma {:induction false} PathLocks(s: State, moves: seq<Move>, t: State)
    requires WellFormed(s) && LocksExact(s) && Path(s, moves, t)
    ensures WellFormed(t) && LocksExact(t) && |t.pools| == |s.pools|
    ensures forall p | 0 <= p < |s.pools| :: t.pools[p].size == s.pools[p].size
    decreases |moves|
  {
    if moves != [] {
      StepWellFormed(s, moves[0]);
      StepLocksExact(s, moves[0]);
      PathLocks(Apply(s, moves[0]), moves[1..], t);
    }
  }

  lemma Reachable(s: State, moves: seq<Move>, t: State)
    requires Initial(s) && Path(s, moves, t)
    ensures WellFormed(t) && LocksExact(t)
    ensures forall p | 0 <= p < |t.pools| :: PM.Inv(Abs(t, p))
  {
    InitialInv(s);
    PathLocks(s, moves, t);
    forall p | 0 <= p < |t.pools| ensures PM.Inv(Abs(t, p)) {
      var acts := PathRefines(s, moves, t, p);
      PM.Reachable(s.pools[p].size, acts, Abs(t, p));
    }
  }

  /** No two threads are inside the section of one lock: in particular at most one callback is running,
      over any number of pools, and each lock is taken exactly while somebody is inside. */
  lemma MutualExclusion(s: State, moves: seq<Move>, t: State, a: ThreadId, b: ThreadId, l: LockName)
    requires Initial(s) && Path(s, moves, t)
    ensures Holds(t, a, l) && Holds(t, b, l) ==> a == b
    ensures LockOf(t, l) == Free <==> forall id :: !Holds(t, id, l)
  {
    Reachable(s, moves, t);
    assert LockExact(t, a, l) && LockExact(t, b, l);
    if LockOf(t, l).HeldBy? {
      assert LockExact(t, LockOf(t, l).holder, l);
    } else {
      forall id ensures !Holds(t, id, l) {
        assert LockExact(t, id, l);
      }
    }
  }

  // ----- no cyclic wait -----

  /** Thread a cannot go on before b does: a waits for a lock that b holds, or a is a destructor joining b. */
  predicate BlockedOn(s: State, a: ThreadId, b: ThreadId, l: LockName)
  {
    || (Waits(s, a, l) && Holds(s, b, l))
    || (a.Destructor? && a.pool < |s.pools| && s.pools[a.pool].teardown.Joining?
        && b == Worker(a.pool, s.pools[a.pool].teardown.joined))
  }

  /** The order in which the process lets threads wait for each other. */
  function Rank(s: State, id: ThreadId): nat
  {
    if id.Destructor? then
      if id.pool < |s.pools| && s.pools[id.pool].teardown.Joining? then 3
      else if id.pool < |s.pools| && s.pools[id.pool].teardown.WantLock? then 1 else 0
    else if id in s.threads then
      var x := s.threads[id];
      if x.call.WantPush? then 1
      else if x.base.WantCallback? then 2
      else if x.base.WantQueue? && id.Worker? then 1 else 0
    else 0
  }

  /** Waiting always goes down in rank, so no set of threads waits for itself: nobody asks for the callback lock
      while holding a queue lock, and whoever is inside a queue section waits for nothing. */
  lemma NoCyclicWait(s: State, moves: seq<Move>, t: State, a: ThreadId, b: ThreadId, l: LockName)
    requires Initial(s) && Path(s, moves, t) && BlockedOn(t, a, b, l)
    ensures Rank(t, b) < Rank(t, a)
    ensures l.Queue? && Holds(t, b, l) ==> Rank(t, b) == 0
  {
    Reachable(s, moves, t);
    if b in t.threads {
      assert WellFormedThread(t.threads[b], b, |t.pools|);
    }
  }

  // ----- deadlock freedom -----

  /** The steps that some thread takes by itself once it has begun: not a new call, a spurious wakeup, the decision
      of a task to use its callback, or the decision to destroy a pool. */
  predicate Own(m: Move)
  {
    !m.StartCall? && !m.Spurious? && !m.Ask? && !m.Destroy?
  }

  ghost predicate Stuck(s: State)
  {
    forall m :: Own(m) ==> !Enabled(s, m)
  }

  /** Whoever holds a queue lock can go on. */
  lemma QueueHolderMoves(s: State, p: nat) returns (m: Move)
    requires WellFormed(s) && LocksExact(s) && p < |s.pools| && s.pools[p].lock != Free
    ensures Own(m) && Enabled(s, m)
  {
    var id := s.pools[p].lock.holder;
    assert LockExact(s, id, Queue(p));
    if id.Destructor? {
      return Advance(p);
    }
    var x := s.threads[id];
    assert WellFormedThread(x, id, |s.pools|);
    return if x.call.InPush? then Push(id) else if x.call.NoCall? && x.base.InSection? then Decide(id) else Unlock(id);
  }

  /** A thread inside a call of enqueue can go on, or the holder of the queue lock it waits for can. */
  lemma CallerMoves(s: State, id: ThreadId) returns (m: Move)
    requires WellFormed(s) && LocksExact(s) && id in s.threads && !s.threads[id].call.NoCall?
    ensures Own(m) && Enabled(s, m)
  {
    var call := s.threads[id].call;
    assert WellFormedThread(s.threads[id], id, |s.pools|);
    match call
    case WantPush(q, _) =>
      if s.pools[q].lock == Free {
        m := Acquire(id, Queue(q));
      } else {
        m := QueueHolderMoves(s, q);
      }
    case InPush(_, _) => m := Push(id);
    case Pushed(_) => m := Unlock(id);
    case ToNotify(q) =>
      if NobodyAsleep(s, q) {
        m := NotifyNone(id);
      } else {
        var w: nat :| AsleepAt(s, q, w);
        m := NotifyOne(id, w);
      }
  }

  /** Whoever holds the callback lock can go on, or the holder of the queue lock it waits for can. */
  lemma CallbackHolderMoves(s: State) returns (m: Move)
    requires WellFormed(s) && LocksExact(s) && s.callback != Free
    ensures Own(m) && Enabled(s, m)
  {
    var id := s.callback.holder;
    assert LockExact(s, id, Callback);
    if s.threads[id].call.NoCall? {
      m := Unlock(id);
    } else {
      m := CallerMoves(s, id);
    }
  }

  predicate Resting(x: Thread)
  {
    x.call.NoCall? && (x.base.Application? || x.base.Asleep? || x.base.Gone?)
  }

  /** While a thread is in the middle of anything, somebody can take a step. */
  lemma ThreadMoves(s: State, id: ThreadId) returns (m: Move)
    requires WellFormed(s) && LocksExact(s) && id in s.threads && !Resting(s.threads[id])
    ensures Own(m) && Enabled(s, m)
  {
    var x := s.threads[id];
    assert WellFormedThread(x, id, |s.pools|);
    if !x.call.NoCall? {
      m := CallerMoves(s, id);
    } else if s.callback != Free {
      m := CallbackHolderMoves(s);
    } else if s.pools[id.pool].lock != Free {
      m := QueueHolderMoves(s, id.pool);
    } else {
      m := if x.base.WantCallback? then Acquire(id, Callback)
           else if x.base.WantQueue? then Acquire(id, Queue(id.pool)) else Finish(id);
      assert LockExact(s, id, Queue(id.pool)) && LockExact(s, id, Callback);
    }
  }

  /** While a destructor is under way, somebody can take a step. */
  lemma TeardownMoves(s: State, p: nat) returns (m: Move)
    requires WellFormed(s) && LocksExact(s) && p < |s.pools| && PM.Inv(Abs(s, p))
    requires !s.pools[p].teardown.NotCalled? && !s.pools[p].teardown.Returned?
    ensures Own(m) && Enabled(s, m)
  {
    var teardown := s.pools[p].teardown;
    if teardown.WantLock? {
      if s.pools[p].lock == Free {
        m := Acquire(Destructor(p), Queue(p));
      } else {
        m := QueueHolderMoves(s, p);
      }
    } else if teardown.Joining? && teardown.joined < s.pools[p].size
      && !s.threads[Worker(p, teardown.joined)].base.Gone? {
      assert !Abs(s, p).workers[teardown.joined].Parked?;
      assert WellFormedThread(s.threads[Worker(p, teardown.joined)], Worker(p, teardown.joined), |s.pools|);
      m := ThreadMoves(s, Worker(p, teardown.joined));
    } else {
      m := Advance(p);
    }
  }

  lemma StuckRests(s: State, id: ThreadId)
    requires WellFormed(s) && LocksExact(s) && Stuck(s) && id in s.threads
    ensures Resting(s.threads[id])
  {
    if !Resting(s.threads[id]) {
      var m := ThreadMoves(s, id);
    }
  }

  lemma StuckPool(s: State, p: nat)
    requires WellFormed(s) && LocksExact(s) && Stuck(s) && p < |s.pools| && PM.Inv(Abs(s, p))
    ensures s.pools[p].lock == Free && (s.pools[p].teardown.NotCalled? || s.pools[p].teardown.Returned?)
    ensures PM.Settled(Abs(s, p))
  {
    if s.pools[p].lock != Free {
      var m := QueueHolderMoves(s, p);
    }
    if !s.pools[p].teardown.NotCalled? && !s.pools[p].teardown.Returned? {
      var m := TeardownMoves(s, p);
    }
    forall id | id in s.threads ensures !Owes(s.threads[id], p) {
      StuckRests(s, id);
    }
    assert Owing(s, p) == {};
    forall i | 0 <= i < s.pools[p].size
      ensures Abs(s, p).workers[i].Parked? || Abs(s, p).workers[i].Exited?
    {
      StuckRests(s, Worker(p, i));
      assert WellFormedThread(s.threads[Worker(p, i)], Worker(p, i), |s.pools|);
    }
  }

  /** The process never deadlocks: when no thread can take a step of its own, every lock is free, nobody is inside
      a call, every worker sleeps or has left, no destructor is under way, and every pool that has a worker has
      executed every task it ever accepted. */
  lemma DeadlockFree(s: State, moves: seq<Move>, t: State)
    requires Initial(s) && Path(s, moves, t) && Stuck(t)
    ensures t.callback == Free && forall p | 0 <= p < |t.pools| :: t.pools[p].lock == Free
    ensures forall id | id in t.threads :: Resting(t.threads[id])
    ensures forall p | 0 <= p < |t.pools| :: t.pools[p].teardown.NotCalled? || t.pools[p].teardown.Returned?
    ensures forall p | 0 <= p < |t.pools| && t.pools[p].size > 0 ::
              t.pools[p].queue == [] && multiset(t.pools[p].finished) == multiset(t.pools[p].accepted)
  {
    Reachable(s, moves, t);
    if t.callback != Free {
      var m := CallbackHolderMoves(t);
    }
    forall id | id in t.threads ensures Resting(t.threads[id]) {
      StuckRests(t, id);
    }
    forall p | 0 <= p < |t.pools|
      ensures t.pools[p].lock == Free && (t.pools[p].teardown.NotCalled? || t.pools[p].teardown.Returned?)
      ensures t.pools[p].size > 0 ==>
        t.pools[p].queue == [] && multiset(t.pools[p].finished) == multiset(t.pools[p].accepted)
    {
      StuckPool(t, p);
      StuckPoolIsDone(s, moves, t, p);
    }
  }

  lemma StuckPoolIsDone(s: State, moves: seq<Move>, t: State, p: nat)
    requires Initial(s) && Path(s, moves, t) && p < |t.pools| && Population(t) && PM.Settled(Abs(t, p))
    ensures t.pools[p].size > 0 ==>
      t.pools[p].queue == [] && multiset(t.pools[p].finished) == multiset(t.pools[p].accepted)
  {
    InitialInv(s);
    PathLocks(s, moves, t);
    var acts := PathRefines(s, moves, t, p);
    PM.NoLostWakeups(s.pools[p].size, acts, Abs(t, p));
  }

  // ----- how long a process is busy -----

  /** ids lists the threads, each once. */
  ghost predicate Enumerates(ids: seq<ThreadId>, s: State)
  {
    && (forall k, m :: 0 <= k < m < |ids| ==> ids[k] != ids[m])
    && (forall k :: 0 <= k < |ids| ==> ids[k] in s.threads)
    && (forall id :: id in s.threads ==> id in ids)
  }

  /** Every process has such a list. */
  lemma {:induction false} Enumeration(keys: set<ThreadId>) returns (ids: seq<ThreadId>)
    ensures forall k, m :: 0 <= k < m < |ids| ==> ids[k] != ids[m]
    ensures forall id :: id in ids <==> id in keys
    decreases |keys|
  {
    if keys == {} {
      ids := [];
    } else {
      var id :| id in keys;
      var rest := Enumeration(keys - {id});
      ids := [id] + rest;
    }
  }

  /** The steps of its own that a worker still takes before it sleeps or leaves; a queued task accounts for its own. */
  function BaseWeight(base: Base): nat
  {
    match base
    case WantQueue => 3
    case InSection => 2
    case Asleep => 0
    case Holding(_) => 5
    case Leaving => 1
    case Gone => 0
    case Working(_) => 4
    case WantCallback(_) => 6
    case InCallback(_) => 5
    case Application => 0
  }

  /** The steps of a call of enqueue, with those of the task and of the worker that it may bring to life. */
  function CallWeight(call: Call): nat
  {
    match call
    case NoCall => 0
    case WantPush(_, _) => 11
    case InPush(_, _) => 10
    case Pushed(_) => 5
    case ToNotify(_) => 4
  }

  predicate Notified(teardown: Teardown)
  {
    teardown.Joining? || teardown.Returned?
  }

  /** Before the notify_all of its pool a worker may still be brought back to life by it. */
  function Reserve(pools: seq<Shared>, id: ThreadId): nat
  {
    if id.Worker? && id.pool < |pools| && !Notified(pools[id.pool].teardown) then 3 else 0
  }

  function ThreadWeight(s: State): ThreadId -> nat
  {
    (id: ThreadId) =>
      if id in s.threads then
        BaseWeight(s.threads[id].base) + CallWeight(s.threads[id].call) + Reserve(s.pools, id)
      else 0
  }

  /** The steps of a destructor, from its call. */
  function TeardownWeight(pool: Shared): nat
  {
    match pool.teardown
    case NotCalled => pool.size + 5
    case WantLock => pool.size + 5
    case InLock => pool.size + 4
    case StopSet => pool.size + 3
    case ToNotifyAll => pool.size + 2
    case Joining(k) => (if k < pool.size then pool.size - k else 0) + 1
    case Returned => 0
  }

  function PoolWeight(pool: Shared): nat
  {
    4 * |pool.queue| + TeardownWeight(pool)
  }

  /** The own steps that are still ahead of the threads of the process. */
  function Effort(s: State, ids: seq<ThreadId>): nat
  {
    Sum(ids, ThreadWeight(s)) + Sum(s.pools, PoolWeight)
  }

  function OwnCost(m: Move): nat { if Own(m) then 1 else 0 }

  /** What may add to that: a call of enqueue, the use of the callback, a spurious wakeup. */
  function Demand(m: Move): nat
  {
    match m case StartCall(_, _, _) => 11 case Ask(_) => 2 case Spurious(_, _) => 3 case _ => 0
  }

  lemma RebaseEffort(s: State, ids: seq<ThreadId>, id: ThreadId, base: Base)
    requires Enumerates(ids, s) && id in s.threads
    ensures Enumerates(ids, Rebase(s, id, base))
    ensures Effort(Rebase(s, id, base), ids) + BaseWeight(s.threads[id].base) == Effort(s, ids) + BaseWeight(base)
  {
    var i :| 0 <= i < |ids| && ids[i] == id;
    SumChange(ids, i, ThreadWeight(s), ThreadWeight(Rebase(s, id, base)));
  }

  lemma RecallEffort(s: State, ids: seq<ThreadId>, id: ThreadId, call: Call)
    requires Enumerates(ids, s) && id in s.threads
    ensures Enumerates(ids, Recall(s, id, call))
    ensures Effort(Recall(s, id, call), ids) + CallWeight(s.threads[id].call) == Effort(s, ids) + CallWeight(call)
  {
    var i :| 0 <= i < |ids| && ids[i] == id;
    SumChange(ids, i, ThreadWeight(s), ThreadWeight(Recall(s, id, call)));
  }

  lemma ShareEffort(s: State, ids: seq<ThreadId>, p: nat, pool: Shared)
    requires p < |s.pools| && Notified(pool.teardown) == Notified(s.pools[p].teardown)
    ensures Effort(Share(s, p, pool), ids) + PoolWeight(s.pools[p]) == Effort(s, ids) + PoolWeight(pool)
  {
    SumUpdate(s.pools, p, pool, PoolWeight);
    SumSame(ids, ThreadWeight(s), ThreadWeight(Share(s, p, pool)));
  }

  /** notify_all uses up what its sleepers have in reserve. */
  lemma WokenEffort(s: State, ids: seq<ThreadId>, p: nat)
    requires p < |s.pools| && s.pools[p].teardown.ToNotifyAll?
    ensures var woken := s.(threads := Woken(s.threads, p));
            Effort(Share(woken, p, s.pools[p].(teardown := Joining(0))), ids) < Effort(s, ids)
  {
    var t := Share(s.(threads := Woken(s.threads, p)), p, s.pools[p].(teardown := Joining(0)));
    SumUpdate(s.pools, p, t.pools[p], PoolWeight);
    SumLighter(ids, ThreadWeight(s), ThreadWeight(t));
  }

  lemma AcquireEffort(s: State, ids: seq<ThreadId>, id: ThreadId, l: LockName)
    requires Enumerates(ids, s) && Enabled(s, Acquire(id, l))
    ensures Effort(Apply(s, Acquire(id, l)), ids) < Effort(s, ids)
  {
    if id.Destructor? {
      ShareEffort(s, ids, id.pool, s.pools[id.pool].(teardown := InLock, lock := HeldBy(id)));
    } else {
      var x := s.threads[id];
      var t;
      if x.call.WantPush? {
        t := Recall(s, id, InPush(x.call.pool, x.call.task));
        RecallEffort(s, ids, id, InPush(x.call.pool, x.call.task));
      } else {
        var base := if x.base.WantCallback? then InCallback(x.base.task) else InSection;
        t := Rebase(s, id, base);
        RebaseEffort(s, ids, id, base);
      }
      LockEffort(t, ids, l, HeldBy(id));
    }
  }

  lemma LockEffort(s: State, ids: seq<ThreadId>, l: LockName, x: Lock)
    requires l.Queue? ==> l.pool < |s.pools|
    ensures Effort(SetLock(s, l, x), ids) == Effort(s, ids)
  {
    if l.Queue? {
      ShareEffort(s, ids, l.pool, s.pools[l.pool].(lock := x));
    } else {
      SumSame(ids, ThreadWeight(s), ThreadWeight(SetLock(s, l, x)));
    }
  }

  lemma DecideEffort(s: State, ids: seq<ThreadId>, id: ThreadId)
    requires Enumerates(ids, s) && Enabled(s, Decide(id))
    ensures Effort(Apply(s, Decide(id)), ids) < Effort(s, ids)
  {
    var pool := s.pools[id.pool];
    if pool.queue != [] {
      RebaseEffort(s, ids, id, Holding(pool.queue[0]));
      ShareEffort(Rebase(s, id, Holding(pool.queue[0])), ids, id.pool,
                  pool.(queue := pool.queue[1..], dequeued := pool.dequeued + [pool.queue[0]]));
    } else if pool.Stop() {
      RebaseEffort(s, ids, id, Leaving);
    } else {
      RebaseEffort(s, ids, id, Asleep);
      ShareEffort(Rebase(s, id, Asleep), ids, id.pool, pool.(lock := Free));
    }
  }

  lemma CallUnlockEffort(s: State, ids: seq<ThreadId>, id: ThreadId)
    requires Enumerates(ids, s) && Enabled(s, Unlock(id)) && s.threads[id].call.Pushed?
    ensures Effort(Apply(s, Unlock(id)), ids) < Effort(s, ids)
  {
    var q := s.threads[id].call.pool;
    RecallEffort(s, ids, id, ToNotify(q));
    LockEffort(Recall(s, id, ToNotify(q)), ids, Queue(q), Free);
  }

  lemma WorkerUnlockEffort(s: State, ids: seq<ThreadId>, id: ThreadId)
    requires Enumerates(ids, s) && Enabled(s, Unlock(id)) && !s.threads[id].call.Pushed?
    ensures Effort(Apply(s, Unlock(id)), ids) < Effort(s, ids)
  {
    var x := s.threads[id];
    var base := if x.base.Leaving? then Gone else Working(x.base.task);
    RebaseEffort(s, ids, id, base);
    LockEffort(Rebase(s, id, base), ids, if x.base.InCallback? then Callback else Queue(id.pool), Free);
  }

  lemma RefusedPushEffort(s: State, ids: seq<ThreadId>, id: ThreadId)
    requires Enumerates(ids, s) && Enabled(s, Push(id)) && s.pools[s.threads[id].call.pool].Stop()
    ensures Effort(Apply(s, Push(id)), ids) < Effort(s, ids)
  {
    var q := s.threads[id].call.pool;
    RecallEffort(s, ids, id, NoCall);
    ShareEffort(Recall(s, id, NoCall), ids, q, s.pools[q].(lock := Free));
  }

  lemma PushEffort(s: State, ids: seq<ThreadId>, id: ThreadId)
    requires Enumerates(ids, s) && Enabled(s, Push(id)) && !s.pools[s.threads[id].call.pool].Stop()
    ensures Effort(Apply(s, Push(id)), ids) < Effort(s, ids)
  {
    var call := s.threads[id].call;
    var pool := s.pools[call.pool];
    RecallEffort(s, ids, id, Pushed(call.pool));
    ShareEffort(Recall(s, id, Pushed(call.pool)), ids, call.pool,
                pool.(queue := pool.queue + [call.task], accepted := pool.accepted + [call.task]));
  }

  lemma NotifyEffort(s: State, ids: seq<ThreadId>, m: Move)
    requires Enumerates(ids, s) && Enabled(s, m) && (m.NotifyOne? || m.NotifyNone?)
    ensures Effort(Apply(s, m), ids) < Effort(s, ids)
  {
    RecallEffort(s, ids, m.id, NoCall);
    if m.NotifyOne? {
      RebaseEffort(Recall(s, m.id, NoCall), ids, Worker(s.threads[m.id].call.pool, m.w), WantQueue);
    }
  }

  lemma AdvanceEffort(s: State, ids: seq<ThreadId>, p: nat)
    requires Enabled(s, Advance(p))
    ensures Effort(Apply(s, Advance(p)), ids) < Effort(s, ids)
  {
    var pool := s.pools[p];
    match pool.teardown
    case InLock => ShareEffort(s, ids, p, pool.(teardown := StopSet));
    case StopSet => ShareEffort(s, ids, p, pool.(teardown := ToNotifyAll, lock := Free));
    case ToNotifyAll => WokenEffort(s, ids, p);
    case Joining(k) => ShareEffort(s, ids, p, pool.(teardown := if k < pool.size then Joining(k + 1) else Returned));
  }

  lemma FinishEffort(s: State, ids: seq<ThreadId>, id: ThreadId)
    requires Enumerates(ids, s) && Enabled(s, Finish(id))
    ensures Effort(Apply(s, Finish(id)), ids) < Effort(s, ids)
  {
    var pool := s.pools[id.pool];
    RebaseEffort(s, ids, id, WantQueue);
    ShareEffort(Rebase(s, id, WantQueue), ids, id.pool,
                pool.(finished := pool.finished + [s.threads[id].base.task]));
  }

  /** The moves that are not own steps add what they demand. */
  lemma DemandEffort(s: State, ids: seq<ThreadId>, m: Move)
    requires Enumerates(ids, s) && Enabled(s, m) && !Own(m)
    ensures Effort(Apply(s, m), ids) <= Effort(s, ids) + Demand(m)
  {
    match m
    case Ask(id) => RebaseEffort(s, ids, id, WantCallback(s.threads[id].base.task));
    case StartCall(id, p, task) => RecallEffort(s, ids, id, WantPush(p, task));
    case Spurious(p, w) => RebaseEffort(s, ids, Worker(p, w), WantQueue);
    case Destroy(p) => ShareEffort(s, ids, p, s.pools[p].(teardown := WantLock));
  }

  lemma StepEffort(s: State, ids: seq<ThreadId>, m: Move)
    requires Enumerates(ids, s) && Enabled(s, m)
    ensures Effort(Apply(s, m), ids) + OwnCost(m) <= Effort(s, ids) + Demand(m)
  {
    match m
    case Acquire(id, l) => AcquireEffort(s, ids, id, l);
    case Decide(id) => DecideEffort(s, ids, id);
    case Unlock(id) =>
      if s.threads[id].call.Pushed? {
        CallUnlockEffort(s, ids, id);
      } else {
        WorkerUnlockEffort(s, ids, id);
      }
    case Push(id) =>
      if s.pools[s.threads[id].call.pool].Stop() {
        RefusedPushEffort(s, ids, id);
      } else {
        PushEffort(s, ids, id);
      }
    case NotifyOne(_, _) => NotifyEffort(s, ids, m);
    case NotifyNone(_) => NotifyEffort(s, ids, m);
    case Advance(p) => AdvanceEffort(s, ids, p);
    case Finish(id) => FinishEffort(s, ids, id);
    case _ => DemandEffort(s, ids, m);
  }

  /** The threads are the same throughout a run. */
  lemma StepThreads(s: State, m: Move)
    requires Enabled(s, m)
    ensures Apply(s, m).threads.Keys == s.threads.Keys
  {
  }

  lemma {:induction false} RunEffort(s: State, ids: seq<ThreadId>, moves: seq<Move>, t: State)
    requires Enumerates(ids, s) && Path(s, moves, t)
    ensures Sum(moves, OwnCost) + Effort(t, ids) <= Effort(s, ids) + Sum(moves, Demand)
    decreases |moves|
  {
    if moves != [] {
      SumHead(moves, OwnCost);
      SumHead(moves, Demand);
      StepEffort(s, ids, moves[0]);
      StepThreads(s, moves[0]);
      RunEffort(Apply(s, moves[0]), ids, moves[1..], t);
    }
  }

  function WorkerShare(id: ThreadId): nat { if id.Worker? then 6 else 0 }
  function PoolShare(pool: Shared): nat { pool.size + 5 }

  /** In every run, whatever the schedule, the own steps of the threads are at most 6 for each worker, 5 and its size
      for each pool, 11 for each call of enqueue, 2 for each use of the callback and 3 for each spurious wakeup. So
      every run comes to the end that DeadlockFree describes, unless it goes on demanding for ever. */
  lemma OwnStepsAreBounded(s: State, ids: seq<ThreadId>, moves: seq<Move>, t: State)
    requires Initial(s) && Enumerates(ids, s) && Path(s, moves, t)
    ensures Sum(moves, OwnCost) + Effort(t, ids) <= Sum(ids, WorkerShare) + Sum(s.pools, PoolShare) + Sum(moves, Demand)
  {
    SumLighter(ids, WorkerShare, ThreadWeight(s));
    SumLighter(s.pools, PoolShare, PoolWeight);
    RunEffort(s, ids, moves, t);
  }
}
