/** A callback that calls enqueue, at the level of single lock operations. */
module Reentry {
  import opened LockLevel

  lemma {:induction false} PathAppend(s: State, moves: seq<Move>, t: State, more: seq<Move>, u: State)
    requires Path(s, moves, t) && Path(t, more, u)
    ensures Path(s, moves + more, u)
    decreases |moves|
  {
    if moves == [] {
      assert moves + more == more;
    } else {
      assert (moves + more)[0] == moves[0] && (moves + more)[1..] == moves[1..] + more;
      PathAppend(Apply(s, moves[0]), moves[1..], t, more, u);
    }
  }

  lemma OneMoreMove(s: State, moves: seq<Move>, t: State, m: Move, u: State)
    requires Path(s, moves, t) && Enabled(t, m) && Apply(t, m) == u
    ensures Path(s, moves + [m], u)
  {
    assert Path(u, [m][1..], u);
    PathAppend(s, moves, t, [m], u);
  }

  /** A process with one pool of two workers and one application thread. */
  function Small(app: Call, first: Thread, second: Base, shared: Shared, callback: Lock): State
  {
    State(map[App(0) := Thread(Application, app), Worker(0, 0) := first, Worker(0, 1) := Thread(second, NoCall)],
          [shared], callback)
  }

  function Busy(queue: seq<Task>, lock: Lock, dequeued: seq<Task>): Shared
  {
    Shared(2, queue, lock, NotCalled, dequeued + queue, dequeued, [])
  }

  const ARRIVING := Thread(WantQueue, NoCall)

  /** The application enters enqueue. */
  lemma AppEnters(task: Task) returns (moves: seq<Move>)
    ensures Path(Small(NoCall, ARRIVING, WantQueue, Busy([], Free, []), Free), moves,
                 Small(InPush(0, task), ARRIVING, WantQueue, Busy([], HeldBy(App(0)), []), Free))
  {
    var s0 := Small(NoCall, ARRIVING, WantQueue, Busy([], Free, []), Free);
    var s1 := Small(WantPush(0, task), ARRIVING, WantQueue, Busy([], Free, []), Free);
    var s2 := Small(InPush(0, task), ARRIVING, WantQueue, Busy([], HeldBy(App(0)), []), Free);
    OneMoreMove(s0, [], s0, StartCall(App(0), 0, task), s1);
    OneMoreMove(s0, [] + [StartCall(App(0), 0, task)], s1, Acquire(App(0), Queue(0)), s2);
    moves := [] + [StartCall(App(0), 0, task)] + [Acquire(App(0), Queue(0))];
  }

  /** It pushes, and has not yet notified. */
  lemma AppPushes(task: Task) returns (moves: seq<Move>)
    ensures Path(Small(InPush(0, task), ARRIVING, WantQueue, Busy([], HeldBy(App(0)), []), Free), moves,
                 Small(ToNotify(0), ARRIVING, WantQueue, Busy([task], Free, []), Free))
  {
    var s0 := Small(InPush(0, task), ARRIVING, WantQueue, Busy([], HeldBy(App(0)), []), Free);
    var s1 := Small(Pushed(0), ARRIVING, WantQueue, Busy([task], HeldBy(App(0)), []), Free);
    var s2 := Small(ToNotify(0), ARRIVING, WantQueue, Busy([task], Free, []), Free);
    var none: seq<Task> := [];
    assert none + [task] == [task] && none + none + [task] == none + [task];
    OneMoreMove(s0, [], s0, Push(App(0)), s1);
    AppLeaves(task);
    OneMoreMove(s0, [] + [Push(App(0))], s1, Unlock(App(0)), s2);
    moves := [] + [Push(App(0))] + [Unlock(App(0))];
  }

  lemma AppLeaves(task: Task)
    ensures var s := Small(Pushed(0), ARRIVING, WantQueue, Busy([task], HeldBy(App(0)), []), Free);
      Enabled(s, Unlock(App(0)))
      && Apply(s, Unlock(App(0))) == Small(ToNotify(0), ARRIVING, WantQueue, Busy([task], Free, []), Free)
  {
  }

  /** A worker takes the task. */
  lemma WorkerTakes(task: Task) returns (moves: seq<Move>)
    ensures Path(Small(ToNotify(0), ARRIVING, WantQueue, Busy([task], Free, []), Free), moves,
                 Small(ToNotify(0), Thread(Working(task), NoCall), WantQueue, Busy([], Free, [task]), Free))
  {
    var id := Worker(0, 0);
    var s0 := Small(ToNotify(0), ARRIVING, WantQueue, Busy([task], Free, []), Free);
    var s1 := Small(ToNotify(0), Thread(InSection, NoCall), WantQueue, Busy([task], HeldBy(id), []), Free);
    var s2 := Small(ToNotify(0), Thread(Holding(task), NoCall), WantQueue, Busy([], HeldBy(id), [task]), Free);
    var s3 := Small(ToNotify(0), Thread(Working(task), NoCall), WantQueue, Busy([], Free, [task]), Free);
    OneMoreMove(s0, [], s0, Acquire(id, Queue(0)), s1);
    TakesFirst(task);
    OneMoreMove(s0, [] + [Acquire(id, Queue(0))], s1, Decide(id), s2);
    OneMoreMove(s0, [] + [Acquire(id, Queue(0))] + [Decide(id)], s2, Unlock(id), s3);
    moves := [] + [Acquire(id, Queue(0))] + [Decide(id)] + [Unlock(id)];
  }

  lemma TakesFirst(task: Task)
    ensures var id := Worker(0, 0);
      var s := Small(ToNotify(0), Thread(InSection, NoCall), WantQueue, Busy([task], HeldBy(id), []), Free);
      var t := Small(ToNotify(0), Thread(Holding(task), NoCall), WantQueue, Busy([], HeldBy(id), [task]), Free);
      Enabled(s, Decide(id)) && Apply(s, Decide(id)) == t
  {
    var none: seq<Task> := [];
    assert [task][1..] == none && none + [task] == [task] && [task] + none == [task];
  }

  /** The task enters its callback. */
  lemma TaskCallsBack(task: Task) returns (moves: seq<Move>)
    ensures Path(Small(ToNotify(0), Thread(Working(task), NoCall), WantQueue, Busy([], Free, [task]), Free), moves,
                 Small(ToNotify(0), Thread(InCallback(task), NoCall), WantQueue, Busy([], Free, [task]),
                       HeldBy(Worker(0, 0))))
  {
    var id, pool := Worker(0, 0), Busy([], Free, [task]);
    var s0 := Small(ToNotify(0), Thread(Working(task), NoCall), WantQueue, pool, Free);
    var s1 := Small(ToNotify(0), Thread(WantCallback(task), NoCall), WantQueue, pool, Free);
    var s2 := Small(ToNotify(0), Thread(InCallback(task), NoCall), WantQueue, pool, HeldBy(id));
    OneMoreMove(s0, [], s0, Ask(id), s1);
    OneMoreMove(s0, [] + [Ask(id)], s1, Acquire(id, Callback), s2);
    moves := [] + [Ask(id)] + [Acquire(id, Callback)];
  }

  /** The first worker is in its callback and waits to enqueue; the second is in its queue section. */
  function Reentered(task: Task, next: Task): State
  {
    Small(ToNotify(0), Thread(InCallback(task), WantPush(0, next)), InSection,
          Busy([], HeldBy(Worker(0, 1)), [task]), HeldBy(Worker(0, 0)))
  }

  /** The callback calls enqueue, and the other worker enters its queue section. */
  lemma CallbackCalls(task: Task, next: Task) returns (moves: seq<Move>)
    ensures Path(Small(ToNotify(0), Thread(InCallback(task), NoCall), WantQueue, Busy([], Free, [task]),
                       HeldBy(Worker(0, 0))), moves, Reentered(task, next))
  {
    var id, other, pool := Worker(0, 0), Worker(0, 1), Busy([], Free, [task]);
    var s0 := Small(ToNotify(0), Thread(InCallback(task), NoCall), WantQueue, pool, HeldBy(id));
    var s1 := Small(ToNotify(0), Thread(InCallback(task), WantPush(0, next)), WantQueue, pool, HeldBy(id));
    OneMoreMove(s0, [], s0, StartCall(id, 0, next), s1);
    OneMoreMove(s0, [] + [StartCall(id, 0, next)], s1, Acquire(other, Queue(0)), Reentered(task, next));
    moves := [] + [StartCall(id, 0, next)] + [Acquire(other, Queue(0))];
  }

  lemma SmallBegins()
    ensures Initial(Small(NoCall, ARRIVING, WantQueue, Busy([], Free, []), Free))
  {
  }

  lemma ReenteredWaits(task: Task, next: Task)
    ensures Holds(Reentered(task, next), Worker(0, 0), Callback)
    ensures BlockedOn(Reentered(task, next), Worker(0, 0), Worker(0, 1), Queue(0))
  {
  }

  /** A callback may call enqueue, and wait in it: a run after which a worker holds the callback lock and waits for the
      queue lock, which another worker holds. So NoCyclicWait and DeadlockFree speak of such waiting too. */
  lemma CallbackReenters(task: Task, next: Task) returns (s: State, moves: seq<Move>, t: State)
    ensures Initial(s) && Path(s, moves, t)
    ensures Holds(t, Worker(0, 0), Callback) && BlockedOn(t, Worker(0, 0), Worker(0, 1), Queue(0))
  {
    s := Small(NoCall, ARRIVING, WantQueue, Busy([], Free, []), Free);
    t := Reentered(task, next);
    var s1 := Small(InPush(0, task), ARRIVING, WantQueue, Busy([], HeldBy(App(0)), []), Free);
    var s2 := Small(ToNotify(0), ARRIVING, WantQueue, Busy([task], Free, []), Free);
    var s3 := Small(ToNotify(0), Thread(Working(task), NoCall), WantQueue, Busy([], Free, [task]), Free);
    var s4 := Small(ToNotify(0), Thread(InCallback(task), NoCall), WantQueue, Busy([], Free, [task]),
                    HeldBy(Worker(0, 0)));
    var first := AppEnters(task);
    var second := AppPushes(task);
    var third := WorkerTakes(task);
    var fourth := TaskCallsBack(task);
    var fifth := CallbackCalls(task, next);
    PathAppend(s, first, s1, second, s2);
    PathAppend(s, first + second, s2, third, s3);
    PathAppend(s, first + second + third, s3, fourth, s4);
    PathAppend(s, first + second + third + fourth, s4, fifth, t);
    SmallBegins();
    ReenteredWaits(task, next);
    moves := first + second + third + fourth + fifth;
  }

  /** In general: whoever is in its callback, and not yet in a call, may call enqueue on any pool. */
  lemma CallbackMayCall(s: State, id: ThreadId, p: nat, task: Task)
    requires Holds(s, id, Callback) && s.threads[id].call.NoCall? && p < |s.pools|
    ensures Enabled(s, StartCall(id, p, task))
    ensures var t := Apply(s, StartCall(id, p, task)); Holds(t, id, Callback) && Waits(t, id, Queue(p))
  {
  }
}
