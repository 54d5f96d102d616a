/** The thread pool itself: the fields that the threads share, updated in place, one method per atomic section.
    Every method is proved against a step, or an interleaving of steps, of PoolMachine. */
module ThreadPool {
  import opened PoolMachine
  import opened Programs

  /** Who is executing: a caller of enqueue that still owes its notification, or the destructor. */
  datatype Mine = Notifier | Destructor

  function Thread(mine: Mine): Machine<Pool, Action>
  {
    Machine((s: Pool, a: Action) => Enabled(s, a),
            (s: Pool, a: Action) => if Enabled(s, a) then Apply(s, a) else s,
            (s: Pool, a: Action) => !Touches(s, a, mine))
  }

  /** The others do not use up the only notification pending, which is the caller's, and do not destroy the pool. */
  predicate Touches(s: Pool, a: Action, mine: Mine)
  {
    match mine
    case Notifier => s.notifies <= 1 && (a.NotifyOne? || a.NotifyNone?)
    case Destructor => a.SetStop? || a.NotifyAll? || a.Join?
  }

  lemma {:induction false} WalkIsPath(mine: Mine, s: Pool, acts: seq<Action>, t: Pool)
    ensures CanWalk(Thread(mine), s, acts) && Walk(Thread(mine), s, acts) == t <==> Path(s, acts, t)
    decreases |acts|
  {
    if acts != [] && Enabled(s, acts[0]) {
      WalkIsPath(mine, Apply(s, acts[0]), acts[1..], t);
    }
  }

  /** Executing a program is a run of the pool. */
  lemma DoesIsPath(mine: Mine, s: Pool, program: seq<Segment<Pool, Action>>, t: Pool)
    requires Does(Thread(mine), s, program, t)
    ensures Path(s, Trace(Thread(mine), s, program), t)
  {
    WalkIsPath(mine, s, Trace(Thread(mine), s, program), t);
  }

  /** A schedule is followed exactly, if the others may take each of its steps when its turn comes. */
  lemma ScheduleIsFollowed(mine: Mine, s: Pool, schedule: seq<Action>, t: Pool)
    requires Path(s, schedule, t) && AllForeign(Thread(mine), s, schedule)
    ensures Does(Thread(mine), s, [Pause(schedule)], t)
    ensures forall u :: Does(Thread(mine), s, [Pause(schedule)], u) ==> u == t
  {
    FollowedEntirely(Thread(mine), s, schedule);
    TraceOne(Thread(mine), s, Pause(schedule));
    WalkIsPath(mine, s, schedule, t);
  }

  class ThreadPool {
    const workers: array<Worker>
    var tasks: seq<Task>
    var stop: bool

    // Where the other threads are: producers about to notify, and the progress of the destructor.
    var notifies: nat
    var phase: Phase

    // The histories of the run.
    var accepted: seq<Task>
    var dequeued: seq<Task>
    var finished: seq<Task>

    function View(): Pool
      reads this, workers
    {
      Pool(workers[..], tasks, notifies, phase, accepted, dequeued, finished)
    }

    /** The stop flag is set exactly while the destructor is past its locked section. */
    predicate Valid()
      reads this
    {
      stop == !phase.Open?
    }

    constructor (threads: nat)
      ensures Valid() && fresh(workers)
      ensures View() == Init(threads)
    {
      workers := new Worker[threads];
      tasks, stop, notifies, phase := [], false, 0, Open;
      accepted, dequeued, finished := [], [], [];
      new;
      for i := 0 to threads
        invariant workers.Length == threads && fresh(workers)
        invariant forall k :: 0 <= k < i ==> workers[k] == Ready
        invariant tasks == accepted == dequeued == finished == [] && !stop && notifies == 0 && phase == Open
        modifies workers
      {
        workers[i] := Ready;
      }
      assert workers[..] == Init(threads).workers;
    }

    /** The locked section of enqueue: it throws once the pool is stopped. */
    method Push(task: Task) returns (ok: bool)
      requires Valid()
      modifies this
      ensures Valid()
      ensures ok == !old(stop)
      ensures View() == Apply(old(View()), if ok then Enqueue(task) else Refuse(task))
    {
      if stop {
        return false;
      }
      tasks := tasks + [task];
      accepted := accepted + [task];
      notifies := notifies + 1;
      return true;
    }

    /** notify_one: it releases some waiting worker, the scheduler decides which, if there is one. */
    method NotifyOneWaiter() returns (a: Action)
      requires Valid() && notifies > 0
      modifies this, workers
      ensures Valid()
      ensures a.NotifyOne? || a.NotifyNone?
      ensures Enabled(old(View()), a) && View() == Apply(old(View()), a)
    {
      if w: nat :| w < workers.Length && workers[w].Parked? {
        a := NotifyOne(w);
        workers[w] := Ready;
        notifies := notifies - 1;
      } else {
        a := NotifyNone;
        notifies := notifies - 1;
      }
    }

    /** The locked section of worker w: wait, leave the loop, or take the first task. */
    method WorkerSection(w: nat)
      requires Valid() && Enabled(View(), Section(w))
      modifies this, workers
      ensures Valid()
      ensures View() == Apply(old(View()), Section(w))
    {
      if !stop && tasks == [] {
        workers[w] := Parked;
      } else if stop && tasks == [] {
        workers[w] := Exited;
      } else {
        var task := tasks[0];
        tasks := tasks[1..];
        dequeued := dequeued + [task];
        workers[w] := Running(task);
      }
    }

    /** The task of worker w returns; an exception in it goes to its future. */
    method TaskReturns(w: nat)
      requires Valid() && Enabled(View(), Finish(w))
      modifies this, workers
      ensures Valid()
      ensures View() == Apply(old(View()), Finish(w))
    {
      finished := finished + [workers[w].task];
      workers[w] := Ready;
    }

    method SpuriousWakeup(w: nat)
      requires Valid() && Enabled(View(), Spurious(w))
      modifies this, workers
      ensures Valid()
      ensures View() == Apply(old(View()), Spurious(w))
    {
      workers[w] := Ready;
    }

    /** The destructor's locked section. */
    method StopPool()
      requires Valid() && phase == Open
      modifies this
      ensures Valid()
      ensures View() == Apply(old(View()), SetStop)
    {
      stop := true;
      phase := Stopping;
    }

    /** notify_all: every waiting worker heads for the lock. */
    method NotifyAllWaiters()
      requires Valid() && phase == Stopping
      modifies this, workers
      ensures Valid()
      ensures View() == Apply(old(View()), NotifyAll)
    {
      ghost var was := workers[..];
      for i := 0 to workers.Length
        invariant forall k :: 0 <= k < i ==> workers[k] == Woken(was)[k]
        invariant forall k :: i <= k < workers.Length ==> workers[k] == was[k]
        modifies workers
      {
        if workers[i].Parked? {
          workers[i] := Ready;
        }
      }
      assert workers[..] == Woken(was);
      phase := Joining(0);
    }

    /** enqueue, with the other threads running between its locked section and its notify_one, which releases some
        waiting worker if there is one; notify is what it did. */
    method EnqueueTask(task: Task, schedule: seq<Action>) returns (ok: bool, notify: Action)
      requires Valid()
      modifies this, workers
      ensures Valid()
      ensures ok == !old(stop)
      ensures !ok ==> View() == old(View())
      ensures ok ==>
        && (notify.NotifyOne? || notify.NotifyNone?)
        && Does(Thread(Notifier), old(View()), [Step(Enqueue(task))] + [Pause(schedule)] + [Step(notify)], View())
        && old(accepted) + [task] <= accepted
      ensures ok && schedule == [] ==>
        && tasks == old(tasks) + [task] && accepted == old(accepted) + [task]
        && notifies == old(notifies) && dequeued == old(dequeued) && finished == old(finished)
        && (if NobodyParked(old(workers[..])) then workers[..] == old(workers[..])
            else notify.NotifyOne? && Is(old(View()), notify.w, Parked)
                 && workers[..] == old(workers[..])[notify.w := Ready])
    {
      ghost var s0 := View();
      ok := Push(task);
      notify := NotifyNone;
      if ok {
        ghost var s1 := View();
        DoesStep(Thread(Notifier), s0, Enqueue(task));
        Others(schedule, Notifier);
        DoesBoth(Thread(Notifier), s0, [Step(Enqueue(task))], s1, [Pause(schedule)], View());
        ghost var s2 := View();
        notify := NotifyOneWaiter();
        DoesStep(Thread(Notifier), s2, notify);
        DoesBoth(Thread(Notifier), s0, [Step(Enqueue(task))] + [Pause(schedule)], s2, [Step(notify)], View());
      }
    }

    /** The turn of a step of another thread: it is taken if it can be. */
    method Offer(a: Action, mine: Mine)
      requires Valid()
      modifies this, workers
      ensures Valid()
      ensures View() ==
        if Enabled(old(View()), a) && !Touches(old(View()), a, mine) then Apply(old(View()), a) else old(View())
    {
      if Enabled(View(), a) && !Touches(View(), a, mine) {
        Do(a);
      }
    }

    /** The other threads follow a schedule as far as it can be executed: each of its steps is taken if it is possible
        when its turn comes and does not belong to the executing thread. */
    method Others(schedule: seq<Action>, mine: Mine)
      requires Valid()
      modifies this, workers
      ensures Valid() && Does(Thread(mine), old(View()), [Pause(schedule)], View())
      ensures schedule == [] ==> View() == old(View())
      ensures mine.Notifier? && old(notifies) > 0 ==> notifies > 0
      ensures mine.Destructor? ==> phase == old(phase)
      ensures old(accepted) <= accepted && (old(stop) ==> stop && accepted == old(accepted))
    {
      ghost var s0 := View();
      ghost var ran: seq<Action> := [];
      FollowNone(Thread(mine), s0, schedule);
      for i := 0 to |schedule|
        invariant Valid() && Following(Thread(mine), s0, schedule, i, ran, View())
        invariant i == 0 ==> View() == s0
        invariant mine.Notifier? && old(notifies) > 0 ==> notifies > 0
        invariant mine.Destructor? ==> phase == old(phase)
        invariant old(accepted) <= accepted && (old(stop) ==> stop && accepted == old(accepted))
      {
        ghost var s := View();
        Offer(schedule[i], mine);
        ran := FollowOne(Thread(mine), s0, schedule, i, ran, s, View());
      }
      FollowAll(Thread(mine), s0, schedule, ran, View());
    }

    /** Any enabled step of the machine is realised by the method of its section. */
    method Do(a: Action)
      requires Valid() && Enabled(View(), a)
      modifies this, workers
      ensures Valid()
      ensures View() == Apply(old(View()), a)
    {
      match a
      case Enqueue(task) => var ok := Push(task);
      case Refuse(task) => var ok := Push(task);
      case NotifyOne(w) => workers[w], notifies := Ready, notifies - 1;
      case NotifyNone => notifies := notifies - 1;
      case Spurious(w) => SpuriousWakeup(w);
      case Section(w) => WorkerSection(w);
      case Finish(w) => TaskReturns(w);
      case SetStop => StopPool();
      case NotifyAll => NotifyAllWaiters();
      case Join => phase := if phase.joined < workers.Length then Joining(phase.joined + 1) else Closed;
    }

    /** One step of the other threads while the destructor is blocked in a join, chosen by the scheduler.
        There always is one: the awaited worker is neither parked nor gone. */
    method OtherThread() returns (a: Action)
      requires Valid() && phase.Joining? && phase.joined < workers.Length && !workers[phase.joined].Exited?
      requires NobodyParked(workers[..])
      modifies this, workers
      ensures Valid()
      ensures !a.Refuse? && Enabled(old(View()), a) && View() == Apply(old(View()), a)
    {
      assert !workers[phase.joined].Parked?;
      if {
        case notifies > 0 =>
          a := NotifyOneWaiter();
        case w: nat :| w < workers.Length && workers[w].Ready? =>
          a := Section(w);
          WorkerSection(w);
        case w: nat :| w < workers.Length && workers[w].Running? =>
          a := Finish(w);
          TaskReturns(w);
      }
    }

    /** One round of the destructor's join loop: join the next worker if it has exited, else wait for it. */
    method JoinOrWait() returns (a: Action)
      requires Valid() && Inv(View()) && phase.Joining?
      modifies this, workers
      ensures Valid()
      ensures !a.Refuse? && Path(old(View()), [a], View())
    {
      if phase.joined == workers.Length || workers[phase.joined].Exited? {
        a := Join;
        Do(a);
      } else {
        a := OtherThread();
      }
    }

    /** The destructor. The other threads run along a schedule once stop is set, and while it waits in join they run in
        whatever order the scheduler picks; it returns, and by then a pool with workers has executed everything it ever
        accepted. */
    method Destroy(schedule: seq<Action>) returns (ghost trace: seq<Action>)
      requires Valid() && Inv(View()) && phase == Open
      modifies this, workers
      ensures Valid()
      ensures Path(old(View()), trace, View()) && phase == Closed && accepted == old(accepted)
      ensures forall i :: 0 <= i < workers.Length ==> workers[i] == Exited
      ensures workers.Length > 0 ==> tasks == [] && dequeued == accepted && multiset(finished) == multiset(accepted)
    {
      ghost var s0 := View();
      trace := BeginDestroy(schedule);
      trace := JoinAll(s0, trace);
      PathInv(s0, trace, View());
      ClosedPool(View());
    }

    /** The destructor up to its join loop; the other threads run between its locked section and its notify_all. */
    method BeginDestroy(schedule: seq<Action>) returns (ghost trace: seq<Action>)
      requires Valid() && phase == Open
      modifies this, workers
      ensures Valid() && phase == Joining(0) && accepted == old(accepted)
      ensures var program := [Step(SetStop)] + [Pause(schedule)] + [Step(NotifyAll)];
        && Does(Thread(Destructor), old(View()), program, View())
        && trace == Trace(Thread(Destructor), old(View()), program)
      ensures Path(old(View()), trace, View())
    {
      ghost var s0 := View();
      StopPool();
      ghost var s1 := View();
      DoesStep(Thread(Destructor), s0, SetStop);
      Others(schedule, Destructor);
      DoesBoth(Thread(Destructor), s0, [Step(SetStop)], s1, [Pause(schedule)], View());
      ghost var s2 := View();
      NotifyAllWaiters();
      DoesStep(Thread(Destructor), s2, NotifyAll);
      DoesBoth(Thread(Destructor), s0, [Step(SetStop)] + [Pause(schedule)], s2, [Step(NotifyAll)], View());
      trace := Trace(Thread(Destructor), s0, [Step(SetStop)] + [Pause(schedule)] + [Step(NotifyAll)]);
      DoesIsPath(Destructor, s0, [Step(SetStop)] + [Pause(schedule)] + [Step(NotifyAll)], View());
    }

    /** The join loop, as the end of a run that began in s0. */
    method JoinAll(ghost s0: Pool, ghost trace: seq<Action>) returns (ghost longer: seq<Action>)
      requires Valid() && phase.Joining? && Inv(s0) && Path(s0, trace, View())
      modifies this, workers
      ensures Valid() && Path(s0, longer, View()) && phase == Closed && accepted == old(accepted)
    {
      longer := trace;
      while phase != Closed
        invariant Valid() && (phase.Joining? || phase.Closed?)
        invariant Path(s0, longer, View()) && accepted == old(accepted)
        decreases StopMeasure(View())
      {
        ghost var s := View();
        PathInv(s0, longer, s);
        var a := JoinOrWait();
        StopStep(s, a);
        StoppedStep(s, a);
        PathAppend(s0, longer, s, [a], View());
        longer := longer + [a];
      }
    }
  }
}
