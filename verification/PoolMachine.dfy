/** The thread pool as a state machine over its atomic sections.

    Any number of workers share a FIFO queue, a condition variable and a stop flag. A worker is heading for
    the queue lock (Ready), waiting on the condition variable (Parked), executing a task (Running) or has left
    its loop (Exited). Producers are anonymous: notifies counts those that have pushed a task and have not yet
    called notify_one. accepted, dequeued and finished are the histories of the run. */
module PoolMachine {
  import opened Sums

  type Task = nat

  datatype Worker = Ready | Parked | Running(task: Task) | Exited

  /** How far the destructor has come: not entered, stop set, notify_all done and joining, returned. */
  datatype Phase = Open | Stopping | Joining(joined: nat) | Closed

  datatype Pool = Pool(
    workers: seq<Worker>,
    queue: seq<Task>,
    notifies: nat,
    phase: Phase,
    accepted: seq<Task>,
    dequeued: seq<Task>,
    finished: seq<Task>)
  {
    predicate Stop() { !phase.Open? }
  }

  datatype Action =
    | Enqueue(task: Task)   // the locked section of enqueue, stop not set
    | Refuse(task: Task)    // the locked section of enqueue, stop set: it throws
    | NotifyOne(w: nat)     // notify_one releases the waiting worker w
    | NotifyNone            // notify_one finds nobody waiting
    | Spurious(w: nat)      // worker w wakes without a notification
    | Section(w: nat)       // worker w in its locked section: park, leave the loop, or dequeue
    | Finish(w: nat)        // what worker w executes returns, or throws into its future
    | SetStop               // the destructor's locked section
    | NotifyAll             // notify_all
    | Join                  // the destructor joins its next worker, or returns

  function Init(n: nat): Pool
  {
    Pool(seq(n, _ => Ready), [], 0, Open, [], [], [])
  }

  predicate Is(s: Pool, w: nat, stage: Worker)
  {
    w < |s.workers| && s.workers[w] == stage
  }

  predicate NobodyParked(workers: seq<Worker>)
  {
    forall i :: 0 <= i < |workers| ==> !workers[i].Parked?
  }

  predicate Enabled(s: Pool, a: Action)
  {
    match a
    case Enqueue(_) => !s.Stop()
    case Refuse(_) => s.Stop()
    case NotifyOne(w) => s.notifies > 0 && Is(s, w, Parked)
    case NotifyNone => s.notifies > 0 && NobodyParked(s.workers)
    case Spurious(w) => Is(s, w, Parked)
    case Section(w) => Is(s, w, Ready)
    case Finish(w) => w < |s.workers| && s.workers[w].Running?
    case SetStop => s.phase == Open
    case NotifyAll => s.phase == Stopping
    case Join => s.phase.Joining? && (s.phase.joined < |s.workers| ==> s.workers[s.phase.joined] == Exited)
  }

  function Move(s: Pool, w: nat, stage: Worker): Pool
    requires w < |s.workers|
  {
    s.(workers := s.workers[w := stage])
  }

  function Woken(workers: seq<Worker>): seq<Worker>
  {
    seq(|workers|, i requires 0 <= i < |workers| => if workers[i].Parked? then Ready else workers[i])
  }

  /** One atomic step. */
  function Apply(s: Pool, a: Action): Pool
    requires Enabled(s, a)
  {
    match a
    case Enqueue(t) => s.(queue := s.queue + [t], accepted := s.accepted + [t], notifies := s.notifies + 1)
    case Refuse(_) => s
    case NotifyOne(w) => Move(s, w, Ready).(notifies := s.notifies - 1)
    case NotifyNone => s.(notifies := s.notifies - 1)
    case Spurious(w) => Move(s, w, Ready)
    case Section(w) =>
      if s.queue != [] then
        Move(s, w, Running(s.queue[0])).(queue := s.queue[1..], dequeued := s.dequeued + [s.queue[0]])
      else if s.Stop() then Move(s, w, Exited)
      else Move(s, w, Parked)
    case Finish(w) => Move(s, w, Ready).(finished := s.finished + [s.workers[w].task])
    case SetStop => s.(phase := Stopping)
    case NotifyAll => s.(workers := Woken(s.workers), phase := Joining(0))
    case Join =>
      if s.phase.joined < |s.workers| then s.(phase := Joining(s.phase.joined + 1)) else s.(phase := Closed)
  }

  /** Executing the actions acts from s is possible and ends in t: one interleaving of all the threads. */
  predicate Path(s: Pool, acts: seq<Action>, t: Pool)
    decreases |acts|
  {
    if acts == [] then s == t else Enabled(s, acts[0]) && Path(Apply(s, acts[0]), acts[1..], t)
  }

  lemma {:induction false} PathAppend(s: Pool, acts: seq<Action>, t: Pool, more: seq<Action>, u: Pool)
    requires Path(s, acts, t) && Path(t, more, u)
    ensures Path(s, acts + more, u)
    decreases |acts|
  {
    if acts == [] {
      assert acts + more == more;
    } else {
      assert (acts + more)[0] == acts[0] && (acts + more)[1..] == acts[1..] + more;
      PathAppend(Apply(s, acts[0]), acts[1..], t, more, u);
    }
  }

  // ----- what is counted -----

  function ReadyWeight(w: Worker): nat { if w.Ready? then 1 else 0 }
  function ParkedWeight(w: Worker): nat { if w.Parked? then 1 else 0 }
  function RunningWeight(w: Worker): nat { if w.Running? then 1 else 0 }

  function TasksOf(w: Worker): multiset<Task>
  {
    if w.Running? then multiset{w.task} else multiset{}
  }

  /** The tasks being executed right now. */
  function RunningTasks(workers: seq<Worker>): multiset<Task>
  {
    if workers == [] then multiset{} else
      RunningTasks(workers[..|workers| - 1]) + TasksOf(workers[|workers| - 1])
  }

  lemma {:induction false} RunningSize(workers: seq<Worker>)
    ensures |RunningTasks(workers)| == Sum(workers, RunningWeight)
  {
    if workers != [] {
      RunningSize(workers[..|workers| - 1]);
    }
  }

  lemma {:induction false} RunningUpdate(workers: seq<Worker>, i: nat, x: Worker)
    requires i < |workers|
    ensures RunningTasks(workers[i := x]) + TasksOf(workers[i]) == RunningTasks(workers) + TasksOf(x)
  {
    var last := |workers| - 1;
    var t := workers[i := x];
    if i == last {
      assert t[..last] == workers[..last];
      Exchanged(RunningTasks(workers[..last]), TasksOf(x), TasksOf(workers[i]));
    } else {
      assert t[..last] == workers[..last][i := x];
      RunningUpdate(workers[..last], i, x);
      Regroup(RunningTasks(t[..last]), RunningTasks(workers[..last]), TasksOf(workers[i]), TasksOf(x),
        TasksOf(t[last]));
    }
  }

  lemma Exchanged(a: multiset<Task>, b: multiset<Task>, c: multiset<Task>)
    ensures (a + b) + c == (a + c) + b
  {
  }

  lemma Regroup(a: multiset<Task>, b: multiset<Task>, c: multiset<Task>, d: multiset<Task>, last: multiset<Task>)
    requires a + c == b + d
    ensures (a + last) + c == (b + last) + d
  {
    assert (a + last) + c == (a + c) + last;
    assert (b + last) + d == (b + d) + last;
  }

  lemma {:induction false} RunningPointwise(a: seq<Worker>, b: seq<Worker>)
    requires |a| == |b| && forall i :: 0 <= i < |a| ==> TasksOf(a[i]) == TasksOf(b[i])
    ensures RunningTasks(a) == RunningTasks(b)
  {
    if a != [] {
      RunningPointwise(a[..|a| - 1], b[..|b| - 1]);
      assert TasksOf(a[|a| - 1]) == TasksOf(b[|a| - 1]);
    }
  }

  // ----- the invariant -----

  /** FIFO: the tasks already taken, followed by the tasks still queued, are the accepted tasks in order. */
  predicate Fifo(s: Pool)
  {
    s.dequeued + s.queue == s.accepted
  }

  /** Every dequeued task is being executed by one worker or has finished. */
  predicate Conserved(s: Pool)
  {
    multiset(s.dequeued) == RunningTasks(s.workers) + multiset(s.finished)
  }

  /** While somebody is parked, every queued task has a pending notification or an awake worker of its own. */
  predicate NoLostWakeup(s: Pool)
  {
    Sum(s.workers, ParkedWeight) > 0 ==> |s.queue| <= s.notifies + Sum(s.workers, ReadyWeight)
  }

  predicate ExitIsFinal(s: Pool)
  {
    forall i :: 0 <= i < |s.workers| && s.workers[i].Exited? ==> s.Stop() && s.queue == []
  }

  /** After notify_all nobody is parked, and the joined workers have exited. */
  predicate Shutdown(s: Pool)
  {
    && (s.phase.Joining? ==>
      && NobodyParked(s.workers)
      && s.phase.joined <= |s.workers|
      && forall i :: 0 <= i < s.phase.joined ==> s.workers[i].Exited?)
    && (s.phase.Closed? ==> forall i :: 0 <= i < |s.workers| ==> s.workers[i].Exited?)
  }

  /** A pool of one worker completes its tasks in the order in which it takes them. */
  predicate SingleFile(s: Pool)
  {
    |s.workers| == 1 ==>
      s.dequeued == s.finished + (if s.workers[0].Running? then [s.workers[0].task] else [])
  }

  predicate Inv(s: Pool)
  {
    Fifo(s) && Conserved(s) && NoLostWakeup(s) && ExitIsFinal(s) && Shutdown(s) && SingleFile(s)
  }

  lemma {:induction false} InitInv(n: nat)
    ensures Inv(Init(n))
  {
    var s := Init(n);
    SumZero(s.workers, ParkedWeight);
    SumZero(s.workers, RunningWeight);
    RunningSize(s.workers);
  }

  lemma RunningKept(workers: seq<Worker>, i: nat, x: Worker)
    requires i < |workers| && !workers[i].Running? && !x.Running?
    ensures RunningTasks(workers[i := x]) == RunningTasks(workers)
  {
    RunningUpdate(workers, i, x);
    NothingAdded(RunningTasks(workers[i := x]), RunningTasks(workers));
  }

  lemma NothingAdded(a: multiset<Task>, b: multiset<Task>)
    ensures a + multiset{} == b <==> a == b
    ensures a == b + multiset{} <==> a == b
  {
  }

  lemma RunningStarts(workers: seq<Worker>, i: nat, task: Task)
    requires i < |workers| && !workers[i].Running?
    ensures RunningTasks(workers[i := Running(task)]) == RunningTasks(workers) + multiset{task}
  {
    RunningUpdate(workers, i, Running(task));
    NothingAdded(RunningTasks(workers[i := Running(task)]), RunningTasks(workers) + multiset{task});
  }

  lemma RunningEnds(workers: seq<Worker>, i: nat, x: Worker)
    requires i < |workers| && workers[i].Running? && !x.Running?
    ensures RunningTasks(workers) == RunningTasks(workers[i := x]) + multiset{workers[i].task}
  {
    RunningUpdate(workers, i, x);
    NothingAdded(RunningTasks(workers[i := x]) + multiset{workers[i].task}, RunningTasks(workers));
  }

  lemma AwakeMoved(workers: seq<Worker>, w: nat, stage: Worker)
    requires w < |workers|
    ensures var after := workers[w := stage];
      && Sum(after, ParkedWeight) + ParkedWeight(workers[w]) == Sum(workers, ParkedWeight) + ParkedWeight(stage)
      && Sum(after, ReadyWeight) + ReadyWeight(workers[w]) == Sum(workers, ReadyWeight) + ReadyWeight(stage)
  {
    SumUpdate(workers, w, stage, ParkedWeight);
    SumUpdate(workers, w, stage, ReadyWeight);
  }

  lemma StepFifo(s: Pool, a: Action)
    requires Fifo(s) && Enabled(s, a)
    ensures Fifo(Apply(s, a))
  {
    if a.Section? && s.queue != [] {
      assert [s.queue[0]] + s.queue[1..] == s.queue;
    }
  }

  lemma Took(dequeued: seq<Task>, finished: seq<Task>, before: multiset<Task>, after: multiset<Task>, task: Task)
    requires multiset(dequeued) == before + multiset(finished) && after == before + multiset{task}
    ensures multiset(dequeued + [task]) == after + multiset(finished)
  {
  }

  lemma Ended(dequeued: seq<Task>, finished: seq<Task>, before: multiset<Task>, after: multiset<Task>, task: Task)
    requires multiset(dequeued) == before + multiset(finished) && before == after + multiset{task}
    ensures multiset(dequeued) == after + multiset(finished + [task])
  {
  }

  lemma StepConserved(s: Pool, a: Action)
    requires Conserved(s) && Enabled(s, a)
    ensures Conserved(Apply(s, a))
  {
    var running := RunningTasks(s.workers);
    var later := RunningTasks(Apply(s, a).workers);
    match a
    case NotifyOne(w) => RunningKept(s.workers, w, Ready);
    case Spurious(w) => RunningKept(s.workers, w, Ready);
    case Section(w) =>
      if s.queue != [] {
        RunningStarts(s.workers, w, s.queue[0]);
        Took(s.dequeued, s.finished, running, later, s.queue[0]);
      } else {
        RunningKept(s.workers, w, Apply(s, a).workers[w]);
      }
    case Finish(w) =>
      RunningEnds(s.workers, w, Ready);
      Ended(s.dequeued, s.finished, running, later, s.workers[w].task);
    case NotifyAll => RunningPointwise(s.workers, Woken(s.workers));
    case _ =>
  }

  lemma StepNoLostWakeup(s: Pool, a: Action)
    requires NoLostWakeup(s) && Enabled(s, a)
    ensures NoLostWakeup(Apply(s, a))
  {
    match a
    case NotifyOne(w) => AwakeMoved(s.workers, w, Ready);
    case NotifyNone => SumZero(s.workers, ParkedWeight);
    case Spurious(w) => AwakeMoved(s.workers, w, Ready);
    case Section(w) => AwakeMoved(s.workers, w, Apply(s, a).workers[w]);
    case Finish(w) => AwakeMoved(s.workers, w, Ready);
    case NotifyAll => SumZero(Woken(s.workers), ParkedWeight);
    case _ =>
  }

  lemma StepExits(s: Pool, a: Action)
    requires ExitIsFinal(s) && Enabled(s, a)
    ensures ExitIsFinal(Apply(s, a))
  {
  }

  lemma StepShutdown(s: Pool, a: Action)
    requires Shutdown(s) && Enabled(s, a)
    ensures Shutdown(Apply(s, a))
  {
  }

  lemma StepSingleFile(s: Pool, a: Action)
    requires SingleFile(s) && Enabled(s, a)
    ensures SingleFile(Apply(s, a)) && |Apply(s, a).workers| == |s.workers|
  {
  }

  lemma StepInv(s: Pool, a: Action)
    requires Inv(s) && Enabled(s, a)
    ensures Inv(Apply(s, a)) && |Apply(s, a).workers| == |s.workers|
  {
    StepFifo(s, a);
    StepConserved(s, a);
    StepNoLostWakeup(s, a);
    StepExits(s, a);
    StepShutdown(s, a);
    StepSingleFile(s, a);
  }

  lemma {:induction false} PathInv(s: Pool, acts: seq<Action>, t: Pool)
    requires Inv(s) && Path(s, acts, t)
    ensures Inv(t) && |t.workers| == |s.workers|
    decreases |acts|
  {
    if acts != [] {
      StepInv(s, acts[0]);
      PathInv(Apply(s, acts[0]), acts[1..], t);
    }
  }

  lemma Reachable(n: nat, acts: seq<Action>, s: Pool)
    requires Path(Init(n), acts, s)
    ensures Inv(s) && |s.workers| == n
  {
    InitInv(n);
    PathInv(Init(n), acts, s);
  }

  // ----- exactly once and FIFO -----

  lemma Partition(s: Pool)
    requires Inv(s)
    ensures multiset(s.accepted) == multiset(s.queue) + RunningTasks(s.workers) + multiset(s.finished)
    ensures |RunningTasks(s.workers)| == Sum(s.workers, RunningWeight) <= |s.workers|
    ensures |s.accepted| == |s.queue| + Sum(s.workers, RunningWeight) + |s.finished|
  {
    assert multiset(s.accepted) == multiset(s.dequeued) + multiset(s.queue);
    assert |multiset(s.dequeued)| == |RunningTasks(s.workers)| + |multiset(s.finished)|;
    assert |multiset(s.dequeued)| == |s.dequeued| && |multiset(s.finished)| == |s.finished|;
    SumBound(s.workers, RunningWeight, 1);
    RunningSize(s.workers);
  }

  /** At every moment the accepted tasks are the disjoint union of the queued, the running and the finished
      ones, and at most one task runs on each worker. */
  lemma ExactlyOnce(n: nat, acts: seq<Action>, s: Pool)
    requires Path(Init(n), acts, s)
    ensures multiset(s.accepted) == multiset(s.queue) + RunningTasks(s.workers) + multiset(s.finished)
    ensures |RunningTasks(s.workers)| <= n
    ensures |s.accepted| == |s.queue| + Sum(s.workers, RunningWeight) + |s.finished|
  {
    Reachable(n, acts, s);
    Partition(s);
  }

  /** Tasks are taken in the order in which enqueue accepted them; one worker also completes them in that order. */
  lemma FifoOrder(n: nat, acts: seq<Action>, s: Pool)
    requires Path(Init(n), acts, s)
    ensures s.dequeued + s.queue == s.accepted && s.dequeued <= s.accepted
    ensures n == 1 ==> s.finished <= s.dequeued && |s.dequeued| <= |s.finished| + 1
  {
    Reachable(n, acts, s);
  }

  // ----- no lost wakeup -----

  /** The steps a pool takes by itself, without a new call or a spurious wakeup. */
  predicate Internal(a: Action)
  {
    a.NotifyOne? || a.NotifyNone? || a.Section? || a.Finish?
  }

  ghost predicate Settled(s: Pool)
  {
    forall a :: Internal(a) ==> !Enabled(s, a)
  }

  lemma SettledStages(s: Pool)
    requires Settled(s)
    ensures forall i :: 0 <= i < |s.workers| ==> s.workers[i].Parked? || s.workers[i].Exited?
    ensures |s.workers| > 0 ==> s.notifies == 0
  {
    forall i | 0 <= i < |s.workers|
      ensures s.workers[i].Parked? || s.workers[i].Exited?
    {
      assert !Enabled(s, Section(i)) && !Enabled(s, Finish(i));
    }
    assert !Enabled(s, NotifyNone);
    if !NobodyParked(s.workers) {
      var w :| 0 <= w < |s.workers| && s.workers[w].Parked?;
      assert !Enabled(s, NotifyOne(w));
    }
  }

  lemma SettledIsDone(s: Pool)
    requires Inv(s) && |s.workers| > 0 && Settled(s)
    ensures s.queue == [] && multiset(s.finished) == multiset(s.accepted)
  {
    SettledStages(s);
    SumZero(s.workers, ParkedWeight);
    SumZero(s.workers, ReadyWeight);
    SumZero(s.workers, RunningWeight);
    Partition(s);
    assert s.workers[0].Parked? || s.workers[0].Exited?;
    assert s.queue == [];
    assert RunningTasks(s.workers) == multiset{};
  }

  /** No wakeup is lost: while a worker is parked, the queue is covered by pending notifications and awake
      workers; and a pool that has nothing left to do by itself has executed every task it accepted. */
  lemma NoLostWakeups(n: nat, acts: seq<Action>, s: Pool)
    requires Path(Init(n), acts, s)
    ensures !NobodyParked(s.workers) ==> |s.queue| <= s.notifies + Sum(s.workers, ReadyWeight)
    ensures n > 0 && Settled(s) ==> s.queue == [] && multiset(s.finished) == multiset(s.accepted)
  {
    Reachable(n, acts, s);
    SumZero(s.workers, ParkedWeight);
    if n > 0 && Settled(s) {
      SettledIsDone(s);
    }
  }

  function OpenWeight(w: Worker): nat { if w.Ready? then 1 else if w.Running? then 2 else 0 }

  function OpenMeasure(s: Pool): nat
  {
    2 * |s.queue| + 2 * s.notifies + Sum(s.workers, OpenWeight)
  }

  /** The credit that a call, a spurious wakeup or notify_all on n workers adds to the work ahead. */
  function Credit(n: nat): Action -> nat
  {
    (a: Action) => if a.Enqueue? then 4 else if a.Spurious? then 1 else if a.NotifyAll? then n else 0
  }

  function Cost(a: Action): nat { if Internal(a) then 1 else 0 }

  lemma {:induction false} WokenWork(workers: seq<Worker>)
    ensures Sum(Woken(workers), OpenWeight) <= Sum(workers, OpenWeight) + |workers|
  {
    if workers != [] {
      var front := workers[..|workers| - 1];
      WokenWork(front);
      assert Woken(workers)[..|workers| - 1] == Woken(front);
    }
  }

  lemma WorkStep(s: Pool, a: Action)
    requires Enabled(s, a)
    ensures |Apply(s, a).workers| == |s.workers|
    ensures OpenMeasure(Apply(s, a)) + Cost(a) <= OpenMeasure(s) + Credit(|s.workers|)(a)
  {
    match a
    case NotifyOne(w) => SumUpdate(s.workers, w, Ready, OpenWeight);
    case Spurious(w) => SumUpdate(s.workers, w, Ready, OpenWeight);
    case Section(w) => SumUpdate(s.workers, w, Apply(s, a).workers[w], OpenWeight);
    case Finish(w) => SumUpdate(s.workers, w, Ready, OpenWeight);
    case NotifyAll => WokenWork(s.workers);
    case _ =>
  }

  /** The work of a pool is bounded by its demand, whatever the schedule: in any interleaving the pool's own steps
      are at most the work already present plus 4 for each accepted task, 1 for each spurious wakeup and 1 for each
      worker at the notify_all of the destructor. Together with NoLostWakeups every accepted task is therefore
      completed. */
  lemma {:induction false} WorkIsBounded(s: Pool, acts: seq<Action>, t: Pool)
    requires Path(s, acts, t)
    ensures |t.workers| == |s.workers|
    ensures Sum(acts, Cost) + OpenMeasure(t) <= OpenMeasure(s) + Sum(acts, Credit(|s.workers|))
    decreases |acts|
  {
    if acts != [] {
      SumHead(acts, Cost);
      SumHead(acts, Credit(|s.workers|));
      WorkStep(s, acts[0]);
      WorkIsBounded(Apply(s, acts[0]), acts[1..], t);
    }
  }

  // ----- shutdown -----

  function StopWeight(w: Worker): nat
  {
    match w case Ready => 1 case Parked => 2 case Running(_) => 2 case Exited => 0
  }

  function PhaseWeight(s: Pool): nat
  {
    match s.phase
    case Open => |s.workers| + 4
    case Stopping => |s.workers| + 3
    case Joining(k) => if k <= |s.workers| then |s.workers| - k + 1 else 0
    case Closed => 0
  }

  /** The distance of a stopped pool from the end of its destructor. */
  function StopMeasure(s: Pool): nat
  {
    2 * |s.queue| + s.notifies + Sum(s.workers, StopWeight) + PhaseWeight(s)
  }

  lemma StopStep(s: Pool, a: Action)
    requires Inv(s) && s.Stop() && Enabled(s, a) && !a.Refuse?
    ensures Apply(s, a).Stop() && StopMeasure(Apply(s, a)) < StopMeasure(s)
  {
    match a
    case NotifyOne(w) => SumUpdate(s.workers, w, Ready, StopWeight);
    case Spurious(w) => SumUpdate(s.workers, w, Ready, StopWeight);
    case Section(w) => SumUpdate(s.workers, w, Apply(s, a).workers[w], StopWeight);
    case Finish(w) => SumUpdate(s.workers, w, Ready, StopWeight);
    case NotifyAll => SumPointwise(s.workers, Woken(s.workers), StopWeight);
    case _ =>
  }

  /** Once stop is set, the destructor can always move on or somebody it waits for can. */
  lemma StopProgress(s: Pool) returns (a: Action)
    requires Inv(s) && s.Stop() && !s.phase.Closed?
    ensures Enabled(s, a) && !a.Refuse? && !a.Spurious?
  {
    if s.phase.Stopping? {
      return NotifyAll;
    }
    var k := s.phase.joined;
    if k == |s.workers| || s.workers[k].Exited? {
      return Join;
    }
    return if s.workers[k].Ready? then Section(k) else Finish(k);
  }

  /** Every run of a stopped pool is shorter than StopMeasure, whatever the schedule: no fairness is needed. */
  lemma {:induction false} ShutdownIsBounded(s: Pool, acts: seq<Action>, t: Pool)
    requires Inv(s) && s.Stop() && Path(s, acts, t) && forall a | a in acts :: !a.Refuse?
    ensures t.Stop() && |acts| + StopMeasure(t) <= StopMeasure(s)
    ensures StopMeasure(s) <= 2 * |s.queue| + s.notifies + 3 * |s.workers| + 3
    decreases |acts|
  {
    SumBound(s.workers, StopWeight, 2);
    if acts != [] {
      StopStep(s, acts[0]);
      StepInv(s, acts[0]);
      ShutdownIsBounded(Apply(s, acts[0]), acts[1..], t);
    }
  }

  /** A stopped pool in which nothing can happen any more, apart from refused calls, has been destroyed. */
  lemma ShutdownCompletes(n: nat, acts: seq<Action>, s: Pool)
    requires Path(Init(n), acts, s) && s.Stop()
    requires forall a :: Enabled(s, a) ==> a.Refuse?
    ensures s.phase == Closed
  {
    Reachable(n, acts, s);
    if s.phase != Closed {
      var a := StopProgress(s);
    }
  }

  /** After notify_all no worker waits on the condition variable ever again. */
  lemma {:induction false} NeverParkedAgain(s: Pool, acts: seq<Action>, t: Pool)
    requires s.Stop() && NobodyParked(s.workers) && Path(s, acts, t)
    ensures t.Stop() && NobodyParked(t.workers)
    decreases |acts|
  {
    if acts != [] {
      NeverParkedAgain(Apply(s, acts[0]), acts[1..], t);
    }
  }

  lemma StoppedStep(s: Pool, a: Action)
    requires s.phase.Joining? && Enabled(s, a)
    ensures Apply(s, a).phase.Joining? || Apply(s, a).phase.Closed?
    ensures Apply(s, a).accepted == s.accepted
  {
  }

  lemma ClosedPool(s: Pool)
    requires Inv(s) && s.phase == Closed
    ensures forall i :: 0 <= i < |s.workers| ==> s.workers[i] == Exited
    ensures multiset(s.dequeued) == multiset(s.finished)
    ensures |s.workers| > 0 ==> s.queue == [] && s.dequeued == s.accepted
  {
    SumZero(s.workers, RunningWeight);
    RunningSize(s.workers);
    if |s.workers| > 0 {
      assert s.workers[0].Exited?;
    }
  }

  /** When the destructor has returned every worker has exited, and every accepted task has been executed
      exactly if the pool had a worker at all or no task was ever accepted. */
  lemma DrainOnShutdown(n: nat, acts: seq<Action>, s: Pool)
    requires Path(Init(n), acts, s) && s.phase == Closed
    ensures forall i :: 0 <= i < |s.workers| ==> s.workers[i] == Exited
    ensures s.queue == [] && multiset(s.finished) == multiset(s.accepted) <==> n > 0 || s.accepted == []
  {
    Reachable(n, acts, s);
    ClosedPool(s);
    if n == 0 {
      NoWorkersNoWork(Init(0), acts, s);
    }
  }

  lemma {:induction false} NoWorkersNoWork(s: Pool, acts: seq<Action>, t: Pool)
    requires Path(s, acts, t) && s.workers == []
    ensures t.dequeued == s.dequeued && t.finished == s.finished
    decreases |acts|
  {
    if acts != [] {
      NoWorkersNoWork(Apply(s, acts[0]), acts[1..], t);
    }
  }

  /** A pool of no workers accepts a task, is destroyed, and never executes it. */
  lemma NoWorkersNoDrain(task: Task) returns (acts: seq<Action>, s: Pool)
    ensures Path(Init(0), acts, s) && s.phase == Closed
    ensures s.accepted == [task] && s.finished == [] && s.queue == [task]
  {
    acts := [Enqueue(task), NotifyNone, SetStop, NotifyAll, Join];
    var s1 := Apply(Init(0), acts[0]);
    var s2 := Apply(s1, acts[1]);
    var s3 := Apply(s2, acts[2]);
    var s4 := Apply(s3, acts[3]);
    s := Apply(s4, acts[4]);
    assert Path(s4, [Join], s);
    assert acts[3..] == [NotifyAll] + [Join];
    assert Path(s3, acts[3..], s);
    assert acts[2..] == [SetStop] + acts[3..];
    assert Path(s2, acts[2..], s);
    assert acts[1..] == [NotifyNone] + acts[2..];
    assert Path(s1, acts[1..], s);
  }

  /** Once a worker has exited, the queue is empty for good and nothing is accepted any more. */
  lemma {:induction false} ExitEndsTheQueue(s: Pool, w: nat, acts: seq<Action>, t: Pool)
    requires Inv(s) && Is(s, w, Exited) && Path(s, acts, t)
    ensures Is(t, w, Exited) && t.queue == [] && t.accepted == s.accepted && t.dequeued == s.dequeued
    decreases |acts|
  {
    if acts != [] {
      StepInv(s, acts[0]);
      ExitEndsTheQueue(Apply(s, acts[0]), w, acts[1..], t);
    }
  }
}
