/** What the threads of the receivers do, as programs: the worker of one receiver, and the calls of one instance.

    A program is the thread's own steps of ReceiverMachine, in their order, with pauses in which all the other threads
    run. */
module ReceiverPrograms {
  import opened ReceiverMachine
  import opened Programs

  type Program = seq<Segment<Process, Action>>

  /** What the executing thread owns: the first instance of the process, or the worker of receiver r. */
  datatype Mine = MyCall | MyWorker(r: nat)

  predicate Touches(a: Action, mine: Mine)
  {
    match mine
    case MyCall => !a.Worker? && a.i == 0
    case MyWorker(r) => a.Worker? && a.r == r
  }

  /** The machine as the thread sees it that owns what is mine. */
  function Thread(mine: Mine): Machine<Process, Action>
  {
    Machine((s: Process, a: Action) => Enabled(s, a),
            (s: Process, a: Action) => if Enabled(s, a) then Apply(s, a) else s,
            (s: Process, a: Action) => !Touches(a, mine))
  }

  lemma {:induction false} WalkIsPath(mine: Mine, s: Process, acts: seq<Action>, t: Process)
    ensures CanWalk(Thread(mine), s, acts) && Walk(Thread(mine), s, acts) == t <==> Path(s, acts, t)
    decreases |acts|
  {
    if acts != [] && Enabled(s, acts[0]) {
      WalkIsPath(mine, Apply(s, acts[0]), acts[1..], t);
    }
  }

  /** Executing a program is a run of the process. */
  lemma DoesIsPath(mine: Mine, s: Process, program: Program, t: Process)
    requires Does(Thread(mine), s, program, t)
    ensures Path(s, Trace(Thread(mine), s, program), t)
    ensures Reached(s) ==> Reached(t)
  {
    WalkIsPath(mine, s, Trace(Thread(mine), s, program), t);
    if Reached(s) {
      ReachedPath(s, Trace(Thread(mine), s, program), t);
    }
  }

  /** A schedule is followed exactly, if it is a run and leaves alone what is mine. */
  lemma {:induction false} ScheduleIsFollowed(mine: Mine, s: Process, schedule: seq<Action>, t: Process)
    requires Path(s, schedule, t) && forall a :: a in schedule ==> !Touches(a, mine)
    ensures AllForeign(Thread(mine), s, schedule) && Does(Thread(mine), s, [Pause(schedule)], t)
    ensures forall u :: Does(Thread(mine), s, [Pause(schedule)], u) ==> u == t
    decreases |schedule|
  {
    if schedule != [] {
      assert schedule[0] in schedule && forall a :: a in schedule[1..] ==> a in schedule;
      ScheduleIsFollowed(mine, Apply(s, schedule[0]), schedule[1..], t);
    }
    FollowedEntirely(Thread(mine), s, schedule);
    TraceOne(Thread(mine), s, Pause(schedule));
    WalkIsPath(mine, s, schedule, t);
  }

  lemma DoesAct(mine: Mine, s: Process, a: Action)
    requires Enabled(s, a)
    ensures Does(Thread(mine), s, [Step(a)], Apply(s, a))
    ensures Reached(s) ==> Reached(Apply(s, a))
  {
    DoesStep(Thread(mine), s, a);
    DoesIsPath(mine, s, [Step(a)], Apply(s, a));
  }

  /** What the other threads leave alone. For a call about receiver r that is the registry and the call itself, and that
      its receiver has been told to stop; for a worker it is everything about its receiver except whether that is told
      to stop. */
  predicate Kept(s: Process, t: Process, mine: Mine, r: nat)
  {
    && |s.receivers| <= |t.receivers| && |s.instances| == |t.instances|
    && (mine.MyCall? && |s.instances| > 0 ==> t.instances[0] == s.instances[0])
    && (mine.MyCall? && r < |s.receivers| ==> Closer(s.receivers[r], t.receivers[r]))
    && (mine.MyWorker? && mine.r < |s.receivers| ==> SameWorker(s.receivers[mine.r], t.receivers[mine.r]))
  }

  /** A receiver told to stop stays so, and its worker comes closer to its end. */
  predicate Closer(x: Receiver, y: Receiver)
  {
    && x.owner == y.owner && x.exchange == y.exchange && (x.joined ==> y.joined)
    && (!x.active ==> !y.active && Distance(y.worker) <= Distance(x.worker))
  }

  lemma NextIsCloser(x: Receiver)
    requires !x.active && x.worker != Ended
    ensures WorkerEnabled(x, NextMove(x.worker))
    ensures var y := WorkerApply(x, NextMove(x.worker)); Closer(x, y) && Distance(y.worker) < Distance(x.worker)
  {
  }

  lemma CallbackIsCloser(x: Receiver)
    requires x.worker.InCallback?
    ensures Closer(x, WorkerApply(x, CallbackReturns))
  {
  }

  predicate SameWorker(x: Receiver, y: Receiver)
  {
    y == x.(active := y.active, joined := y.joined) && (y.active ==> x.active)
  }

  lemma StepKept(s: Process, a: Action, mine: Mine, r: nat)
    requires Enabled(s, a) && !Touches(a, mine)
    ensures Kept(s, Apply(s, a), mine, r)
  {
    if a.Worker? {
      WorkerStep(s, a.r, a.move);
    } else {
      InstanceStep(s, a);
      InstanceSpares(s, a);
    }
  }

  lemma InstanceSpares(s: Process, a: Action)
    requires Enabled(s, a) && !a.Worker?
    ensures forall i :: 0 <= i < |s.instances| && i != a.i ==> Apply(s, a).instances[i] == s.instances[i]
  {
  }

  lemma NoLaunch(s: Process, a: Action)
    requires Enabled(s, a) && !a.Worker? && !a.StartThread?
    ensures |Apply(s, a).receivers| == |s.receivers|
  {
  }

  /** One round of waitForMessages as the broker makes it: the fetch throws, or returns a message whose acknowledgement
      may throw. */
  datatype Round = FetchFails | Message(m: Message, acknowledged: bool)

  /** The messages that a script of rounds contains. */
  function Received(script: seq<Round>): seq<Message>
  {
    if script == [] then [] else
      var last := script[|script| - 1];
      Received(script[..|script| - 1]) + (if last.Message? then [last.m] else [])
  }

  /** A round after which the loop goes on. */
  predicate Smooth(round: Round)
  {
    round.Message? && round.acknowledged
  }

  /** The schedules of the other threads in the four pauses of a round. */
  datatype Noise = Noise(
    fetching: seq<Action>,
    waiting: seq<Action>,       // for the mutex
    calling: seq<Action>,       // during the callback
    acknowledging: seq<Action>)

  /** A receiver whose fetch has returned, after one round. */
  function AfterRound(x: Receiver, round: Round): Receiver
  {
    match round
    case FetchFails => x.(worker := Handling)
    case Message(m, acknowledged) =>
      var y := x.(fetched := x.fetched + [m], delivered := x.delivered + [m]);
      if acknowledged then y.(worker := AtLoop, acknowledged := y.fetched) else y.(worker := Handling)
  }

  lemma AnyStage(x: Receiver, stage: Stage, round: Round)
    ensures AfterRound(x.(worker := stage), round) == AfterRound(x, round)
  {
  }

  /** A receiver at the head of its loop, after a script of smooth rounds. */
  function AfterRounds(x: Receiver, script: seq<Round>): Receiver
  {
    var got := Received(script);
    x.(worker := AtLoop,
       fetched := x.fetched + got, delivered := x.delivered + got, acknowledged := x.acknowledged + got)
  }

  predicate AllSmooth(script: seq<Round>)
  {
    forall k :: 0 <= k < |script| ==> Smooth(script[k])
  }

  /** From x to y the worker has gone through so many smooth rounds of the script and is at the head of its loop. */
  predicate AtHead(x: Receiver, script: seq<Round>, rounds: nat, y: Receiver)
  {
    && rounds <= |script| && AllSmooth(script[..rounds]) && (!x.active ==> rounds == 0)
    && SameWorker(AfterRounds(x, script[..rounds]), y)
  }

  /** The worker has left its loop by its test, or waits for a message that is not in the script any more. */
  predicate LeftByTest(x: Receiver, script: seq<Round>, rounds: nat, y: Receiver)
  {
    && rounds <= |script| && AllSmooth(script[..rounds]) && (!x.active ==> rounds == 0)
    && SameWorker(AfterRounds(x, script[..rounds]).(worker := y.worker), y)
    && (if y.worker == Fetching then rounds == |script| else y.worker == Ended && !y.active)
  }

  /** The last of the rounds has thrown. */
  predicate LeftByException(x: Receiver, script: seq<Round>, rounds: nat, y: Receiver)
  {
    && 0 < rounds <= |script| && AllSmooth(script[..rounds - 1]) && !Smooth(script[rounds - 1]) && x.active
    && SameWorker(AfterRound(AfterRounds(x, script[..rounds - 1]), script[rounds - 1]), y)
  }

  /** How far the loop has come: the worker is at its head, or has left it. */
  datatype Exit = Inside | ByTest | ByException

  predicate Progress(x: Receiver, script: seq<Round>, rounds: nat, exit: Exit, y: Receiver)
  {
    match exit
    case Inside => AtHead(x, script, rounds, y)
    case ByTest => LeftByTest(x, script, rounds, y)
    case ByException => LeftByException(x, script, rounds, y)
  }

  lemma HeadBegins(x: Receiver, script: seq<Round>)
    requires x.worker == AtLoop
    ensures Progress(x, script, 0, Inside, x)
  {
    assert AfterRounds(x, script[..0]) == x;
  }

  lemma HeadMoves(x: Receiver, script: seq<Round>, rounds: nat, y: Receiver, z: Receiver)
    requires AtHead(x, script, rounds, y) && x.fetched == x.acknowledged
    requires rounds < |script| && y.active && SameWorker(AfterRound(y, script[rounds]), z)
    ensures if Smooth(script[rounds]) then AtHead(x, script, rounds + 1, z)
      else LeftByException(x, script, rounds + 1, z)
  {
    assert script[..rounds + 1][..rounds] == script[..rounds];
  }

  lemma HeadEnds(x: Receiver, script: seq<Round>, rounds: nat, y: Receiver, z: Receiver)
    requires AtHead(x, script, rounds, y) && (y.active ==> rounds == |script|)
    requires z == y.(worker := if y.active then Fetching else Ended)
    ensures LeftByTest(x, script, rounds, z)
  {
  }

  /** What waitForMessages has done, from x to y, in so many rounds of the script. Every message fetched is delivered,
      in order, and acknowledged, except the last one if its acknowledgement threw. The worker ends by an exception, or
      when it finds that it has been told to stop, and otherwise waits for a message. */
  predicate Waited(x: Receiver, script: seq<Round>, rounds: nat, y: Receiver)
  {
    && rounds <= |script| && (!x.active ==> rounds == 0) && (y.active ==> x.active)
    && (forall k :: 0 <= k < rounds - 1 ==> Smooth(script[k]))
    && y.fetched == y.delivered == x.fetched + Received(script[..rounds])
    && if rounds > 0 && !Smooth(script[rounds - 1]) then
         && y.worker == Ended
         && (if script[rounds - 1].Message? then y.acknowledged + [script[rounds - 1].m] == y.fetched
             else y.acknowledged == y.fetched)
       else
         && y.acknowledged == y.fetched
         && (if y.worker == Fetching then rounds == |script| else y.worker == Ended && !y.active)
  }

  lemma WaitedUntilThrow(x: Receiver, script: seq<Round>, rounds: nat, y: Receiver)
    requires LeftByException(x, script, rounds, y) && x.fetched == x.delivered == x.acknowledged
    ensures y.worker == Handling && Waited(x, script, rounds, y.(worker := Ended))
  {
    assert script[..rounds][..rounds - 1] == script[..rounds - 1];
  }

  lemma WaitedUntilTest(x: Receiver, script: seq<Round>, rounds: nat, y: Receiver)
    requires LeftByTest(x, script, rounds, y) && x.fetched == x.delivered == x.acknowledged
    ensures Waited(x, script, rounds, y)
  {
  }

  // ----- the program of a worker -----

  /** What has to happen before the mutex is free: the callback that is running returns. */
  function HolderLeaves(s: Process): seq<Action>
  {
    match s.mutex case Free => [] case HeldBy(q) => [Worker(q, CallbackReturns)]
  }

  /** A message, from the return of the fetch to the acknowledgement. */
  function MessageProgram(r: nat, m: Message, acknowledged: bool, noise: Noise): Program
  {
    EnterProgram(r, noise.waiting)
    + [Pause(noise.calling)] + [Step(Worker(r, CallbackReturns))]
    + [Pause(noise.acknowledging)]
    + [Step(Worker(r, if acknowledged then AcknowledgeReturns else AcknowledgeThrows))]
  }

  /** Waiting for the mutex, and taking it. */
  function EnterProgram(r: nat, waiting: seq<Action>): Program
  {
    [Pause(waiting)] + [Then(HolderLeaves)] + [Step(Worker(r, TakeLock))]
  }

  /** One round, after the test of the loop. */
  function ReceiveProgram(r: nat, round: Round, noise: Noise): Program
  {
    [Pause(noise.fetching)] +
    match round
    case FetchFails => [Step(Worker(r, FetchThrows))]
    case Message(m, acknowledged) => [Step(Worker(r, FetchReturns(m)))] + MessageProgram(r, m, acknowledged, noise)
  }

  function RoundProgram(r: nat, round: Round, noise: Noise): Program
  {
    [Step(Worker(r, Check))] + ReceiveProgram(r, round, noise)
  }

  /** All the rounds of a script. */
  function LoopProgram(r: nat, script: seq<Round>, noise: nat -> Noise): Program
  {
    if script == [] then [] else
      var k := |script| - 1;
      LoopProgram(r, script[..k], noise) + RoundProgram(r, script[k], noise(k))
  }

  /** waitForMessages: the rounds gone through, and the last test, or the catch block. */
  function WaitProgram(r: nat, script: seq<Round>, noise: nat -> Noise, exit: Exit): Program
  {
    LoopProgram(r, script, noise) + TailProgram(r, noise(|script|).fetching, exit)
  }

  function TailProgram(r: nat, schedule: seq<Action>, exit: Exit): Program
  {
    if exit == ByException then [Pause(schedule)] + [Step(Worker(r, HandlerReturns))] else [Step(Worker(r, Check))]
  }

  /** The rounds gone through so far, and the test that has left the loop, if it has. */
  ghost predicate HasDone(r: nat, script: seq<Round>, noise: nat -> Noise, rounds: nat, exit: Exit, s: Process,
    t: Process)
  {
    && rounds <= |script|
    && Does(Thread(MyWorker(r)), s,
            LoopProgram(r, script[..rounds], noise) + if exit == ByTest then [Step(Worker(r, Check))] else [], t)
  }

  lemma HasDoneNothing(r: nat, script: seq<Round>, noise: nat -> Noise, s: Process)
    ensures HasDone(r, script, noise, 0, Inside, s, s)
  {
    assert LoopProgram(r, script[..0], noise) + [] == [];
  }

  /** One more round, or the test that leaves the loop. */
  lemma DoesNext(r: nat, script: seq<Round>, noise: nat -> Noise, rounds: nat, exit: Exit,
                 s0: Process, s: Process, t: Process)
    requires rounds < |script| && HasDone(r, script, noise, rounds, Inside, s0, s)
    requires Does(Thread(MyWorker(r)), s,
      if exit == ByTest then [Step(Worker(r, Check))] else RoundProgram(r, script[rounds], noise(rounds)), t)
    ensures HasDone(r, script, noise, if exit == ByTest then rounds else rounds + 1, exit, s0, t)
  {
    var done := LoopProgram(r, script[..rounds], noise);
    assert done + [] == done;
    assert script[..rounds + 1][..rounds] == script[..rounds];
    DoesBoth(Thread(MyWorker(r)), s0, done, s,
      if exit == ByTest then [Step(Worker(r, Check))] else RoundProgram(r, script[rounds], noise(rounds)), t);
    if exit != ByTest {
      var more := LoopProgram(r, script[..rounds + 1], noise);
      assert more == done + RoundProgram(r, script[rounds], noise(rounds));
      assert more + [] == more;
    }
  }

  lemma DoesLast(r: nat, script: seq<Round>, noise: nat -> Noise, s0: Process, s: Process, t: Process)
    requires HasDone(r, script, noise, |script|, Inside, s0, s)
    requires Does(Thread(MyWorker(r)), s, [Step(Worker(r, Check))], t)
    ensures HasDone(r, script, noise, |script|, ByTest, s0, t)
  {
    var done := LoopProgram(r, script[..|script|], noise);
    assert done + [] == done;
    DoesBoth(Thread(MyWorker(r)), s0, done, s, [Step(Worker(r, Check))], t);
  }

  lemma DoesCatch(r: nat, script: seq<Round>, noise: nat -> Noise, rounds: nat, s0: Process, s: Process, t: Process)
    requires HasDone(r, script, noise, rounds, ByException, s0, s)
    requires Does(Thread(MyWorker(r)), s, [Pause(noise(rounds).fetching)] + [Step(Worker(r, HandlerReturns))], t)
    ensures Does(Thread(MyWorker(r)), s0, WaitProgram(r, script[..rounds], noise, ByException), t)
  {
    var done := LoopProgram(r, script[..rounds], noise);
    assert done + [] == done;
    DoesBoth(Thread(MyWorker(r)), s0, done,
             s, [Pause(noise(rounds).fetching)] + [Step(Worker(r, HandlerReturns))], t);
  }

  /** A round whose fetch has returned a message. */
  lemma DoesReceive(r: nat, round: Round, noise: Noise, s0: Process, s1: Process, s2: Process)
    requires round.Message?
    requires Does(Thread(MyWorker(r)), s0, [Pause(noise.fetching)] + [Step(Worker(r, FetchReturns(round.m)))], s1)
    requires Does(Thread(MyWorker(r)), s1, MessageProgram(r, round.m, round.acknowledged, noise), s2)
    ensures Does(Thread(MyWorker(r)), s0, ReceiveProgram(r, round, noise), s2)
  {
    var pause: Program := [Pause(noise.fetching)];
    var fetch: Program := [Step(Worker(r, FetchReturns(round.m)))];
    var deliver := MessageProgram(r, round.m, round.acknowledged, noise);
    DoesBoth(Thread(MyWorker(r)), s0, pause + fetch, s1, deliver, s2);
    Regroup(pause, fetch, deliver);
  }

  // ----- a stop is heard -----

  /** The thread of an instance tells receiver r to stop. */
  predicate TellsToStop(s: Process, a: Action, r: nat)
  {
    match a
    case StopBegin(i, exchange) =>
      i < |s.instances| && exchange in s.instances[i].registry && s.instances[i].registry[exchange] == r
    case TeardownNext(i) =>
      i < |s.instances| && s.instances[i].control.Loop? && s.instances[i].control.rest != []
      && s.instances[i].control.rest[0] == r
    case _ => false
  }

  lemma ToldNow(s: Process, a: Action, r: nat)
    requires Enabled(s, a) && TellsToStop(s, a, r)
    ensures Silenced(Apply(s, a), r)
  {
  }

  /** Receiver r has been told to stop. */
  predicate Silenced(s: Process, r: nat)
  {
    r < |s.receivers| && !s.receivers[r].active
  }

  lemma {:induction false} SilencedForGood(s: Process, acts: seq<Action>, t: Process, r: nat)
    requires Path(s, acts, t) && Silenced(s, r)
    ensures Silenced(t, r)
    decreases |acts|
  {
    if acts != [] {
      StepEvolves(s, acts[0]);
      SilencedForGood(Apply(s, acts[0]), acts[1..], t, r);
    }
  }

  lemma StaysSilenced(mine: Mine, s: Process, program: Program, t: Process, r: nat)
    requires Does(Thread(mine), s, program, t) && Silenced(s, r)
    ensures Silenced(t, r)
  {
    DoesIsPath(mine, s, program, t);
    SilencedForGood(s, Trace(Thread(mine), s, program), t, r);
  }

  /** A pause whose schedule has the receiver told to stop, if that is possible when its turn comes, ends with the
      receiver told to stop. */
  lemma StopInPause(mine: Mine, s: Process, before: seq<Action>, a: Action, after: seq<Action>, t: Process, r: nat)
    requires Does(Thread(mine), s, [Pause(before + [a] + after)], t)
    requires var u := Walk(Thread(mine), s, Ran(Thread(mine), s, before));
      Enabled(u, a) && !Touches(a, mine) && TellsToStop(u, a, r)
    ensures Silenced(t, r)
  {
    var m := Thread(mine);
    var ran := Ran(m, s, before);
    var u := Walk(m, s, ran);
    var v := Apply(u, a);
    var more := Ran(m, v, after);
    TakenInTurn(m, s, before, a, after);
    TraceOne(m, s, Pause(before + [a] + after));
    WalkAppend(m, s, ran, [a] + more);
    assert ([a] + more)[1..] == more;
    ToldNow(u, a, r);
    WalkIsPath(mine, v, more, t);
    SilencedForGood(v, more, t, r);
  }

  /** The others leave the stage of a worker alone. */
  lemma {:induction false} PauseKeepsStage(r: nat, s: Process, schedule: seq<Action>)
    requires r < |s.receivers|
    ensures var t := Walk(Thread(MyWorker(r)), s, Ran(Thread(MyWorker(r)), s, schedule));
      r < |t.receivers| && t.receivers[r].worker == s.receivers[r].worker
    decreases |schedule|
  {
    if schedule != [] {
      if Enabled(s, schedule[0]) && !Touches(schedule[0], MyWorker(r)) {
        StepKept(s, schedule[0], MyWorker(r), r);
        PauseKeepsStage(r, Apply(s, schedule[0]), schedule[1..]);
      } else {
        PauseKeepsStage(r, s, schedule[1..]);
      }
    }
  }

  /** A receiver that has been told to stop goes through no further round. */
  lemma NoRoundIfSilenced(r: nat, round: Round, noise: Noise, s: Process, t: Process)
    requires Does(Thread(MyWorker(r)), s, RoundProgram(r, round, noise), t) && r < |s.receivers|
    ensures s.receivers[r].active
  {
    var m := Thread(MyWorker(r));
    var fetch := if round.FetchFails? then Worker(r, FetchThrows) else Worker(r, FetchReturns(round.m));
    var rest: Program :=
      if round.FetchFails? then [] else MessageProgram(r, round.m, round.acknowledged, noise);
    var begin: Program := [Step(Worker(r, Check))] + [Pause(noise.fetching)] + [Step(fetch)];
    assert RoundProgram(r, round, noise) == begin + rest;
    var u := DoesSplit(m, s, begin, rest, t);
    var v := DoesSplit(m, s, [Step(Worker(r, Check))] + [Pause(noise.fetching)], [Step(fetch)], u);
    var w := DoesSplit(m, s, [Step(Worker(r, Check))], [Pause(noise.fetching)], v);
    StepDone(m, s, Worker(r, Check), w);
    PauseDone(m, w, noise.fetching, v);
    StepDone(m, v, fetch, u);
    PauseKeepsStage(r, w, noise.fetching);
  }

  /** Once it has been told to stop in some round, that round is the last. */
  lemma {:induction false} LastRound(r: nat, script: seq<Round>, noise: nat -> Noise, k: nat, s: Process, t: Process)
    requires k < |script| && Does(Thread(MyWorker(r)), s, LoopProgram(r, script, noise), t)
    requires Silenced(Walk(Thread(MyWorker(r)), s,
      Trace(Thread(MyWorker(r)), s, LoopProgram(r, script[..k + 1], noise))), r)
    ensures k + 1 == |script|
    decreases |script|
  {
    var last := |script| - 1;
    if k < last {
      var m := Thread(MyWorker(r));
      var u := DoesSplit(m, s, LoopProgram(r, script[..last], noise), RoundProgram(r, script[last], noise(last)), t);
      assert script[..last][..k + 1] == script[..k + 1];
      LastRound(r, script[..last], noise, k, s, u);
      assert script[..k + 1] == script[..last];
      NoRoundIfSilenced(r, script[last], noise(last), u, t);
    }
  }

  /** The beginning of a loop that has been executed has been executed. */
  lemma {:induction false} LoopPrefix(r: nat, script: seq<Round>, noise: nat -> Noise, n: nat, s: Process, t: Process)
    returns (u: Process)
    requires n <= |script| && Does(Thread(MyWorker(r)), s, LoopProgram(r, script, noise), t)
    ensures Does(Thread(MyWorker(r)), s, LoopProgram(r, script[..n], noise), u)
    decreases |script|
  {
    if n == |script| {
      assert script[..n] == script;
      u := t;
    } else {
      var last := |script| - 1;
      var v := DoesSplit(Thread(MyWorker(r)), s, LoopProgram(r, script[..last], noise),
                         RoundProgram(r, script[last], noise(last)), t);
      assert script[..last][..n] == script[..n];
      u := LoopPrefix(r, script[..last], noise, n, s, v);
    }
  }

  /** After the worker has executed a program from s, and the others the beginning of a schedule, they can take step a,
      which tells the receiver to stop. */
  ghost predicate ToldAfter(r: nat, s: Process, done: Program, before: seq<Action>, a: Action)
  {
    var m := Thread(MyWorker(r));
    var u := Walk(m, s, Trace(m, s, done));
    var v := Walk(m, u, Ran(m, u, before));
    Enabled(v, a) && !Touches(a, MyWorker(r)) && TellsToStop(v, a, r)
  }

  /** After the round in which it has been told to stop. */
  lemma SilencedInRound(r: nat, round: Round, noise: Noise, head: Program, s: Process, t: Process,
                        p: Program, before: seq<Action>, a: Action, after: seq<Action>, q: Program)
    requires Does(Thread(MyWorker(r)), s, head + RoundProgram(r, round, noise), t)
    requires RoundProgram(r, round, noise) == p + [Pause(before + [a] + after)] + q
    requires ToldAfter(r, s, head + p, before, a)
    ensures Silenced(t, r)
  {
    var m := Thread(MyWorker(r));
    var pause: Program := [Pause(before + [a] + after)];
    Regroup(head, p + pause, q);
    Regroup(head, p, pause);
    var x := DoesSplit(m, s, head + p + pause, q, t);
    var u := DoesSplit(m, s, head + p, pause, x);
    StopInPause(MyWorker(r), u, before, a, after, x, r);
    StaysSilenced(MyWorker(r), x, q, t, r);
  }

  /** The worker of a receiver that has been told to stop ends at its next test, or in its catch block. */
  lemma SilencedEnds(r: nat, noise: seq<Action>, exit: Exit, s: Process, t: Process)
    requires Silenced(s, r)
    requires Does(Thread(MyWorker(r)), s, TailProgram(r, noise, exit), t)
    ensures r < |t.receivers| && t.receivers[r].worker == Ended
  {
    var m := Thread(MyWorker(r));
    if exit == ByException {
      var u := DoesSplit(m, s, [Pause(noise)], [Step(Worker(r, HandlerReturns))], t);
      StaysSilenced(MyWorker(r), s, [Pause(noise)], u, r);
      StepDone(m, u, Worker(r, HandlerReturns), t);
    } else {
      StepDone(m, s, Worker(r, Check), t);
    }
  }

  lemma StopInLoop(r: nat, script: seq<Round>, noise: nat -> Noise, k: nat, s: Process, t: Process,
                   p: Program, before: seq<Action>, a: Action, after: seq<Action>, q: Program)
    requires k < |script| && Does(Thread(MyWorker(r)), s, LoopProgram(r, script, noise), t)
    requires RoundProgram(r, script[k], noise(k)) == p + [Pause(before + [a] + after)] + q
    requires ToldAfter(r, s, LoopProgram(r, script[..k], noise) + p, before, a)
    ensures k + 1 == |script| && Silenced(t, r)
  {
    var head := LoopProgram(r, script[..k], noise);
    var u := LoopPrefix(r, script, noise, k + 1, s, t);
    assert script[..k + 1][..k] == script[..k];
    assert LoopProgram(r, script[..k + 1], noise) == head + RoundProgram(r, script[k], noise(k));
    SilencedInRound(r, script[k], noise(k), head, s, u, p, before, a, after, q);
    LastRound(r, script, noise, k, s, t);
    assert script[..k + 1] == script;
  }

  /** A stop is heard: if, in some pause of a round of waitForMessages, the receiver can be told to stop when the turn
      of that step comes, that round is the last one, and the worker ends. */
  lemma StopIsHeard(r: nat, script: seq<Round>, noise: nat -> Noise, exit: Exit, k: nat, s: Process, t: Process,
                    p: Program, before: seq<Action>, a: Action, after: seq<Action>, q: Program)
    requires k < |script| && Does(Thread(MyWorker(r)), s, WaitProgram(r, script, noise, exit), t)
    requires RoundProgram(r, script[k], noise(k)) == p + [Pause(before + [a] + after)] + q
    requires ToldAfter(r, s, LoopProgram(r, script[..k], noise) + p, before, a)
    ensures k + 1 == |script| && r < |t.receivers| && t.receivers[r].worker == Ended
  {
    var m := Thread(MyWorker(r));
    var end := DoesSplit(m, s, LoopProgram(r, script, noise), TailProgram(r, noise(|script|).fetching, exit), t);
    StopInLoop(r, script, noise, k, s, end, p, before, a, after, q);
    SilencedEnds(r, noise(|script|).fetching, exit, end, t);
  }

  // ----- the programs of the calls -----

  /** The next steps of a worker that is awaited: if it wants the mutex and somebody holds it, the holder leaves first.
      */
  function MoveOn(r: nat): Process -> seq<Action>
  {
    (s: Process) =>
      if r >= |s.receivers| || s.receivers[r].worker == Ended then []
      else if s.receivers[r].worker.WantLock? then HolderLeaves(s) + [Worker(r, TakeLock)]
      else [Worker(r, NextMove(s.receivers[r].worker))]
  }

  /** So many rounds of waiting for a worker, with the other threads running in between. */
  function AwaitProgram(r: nat, schedules: seq<seq<Action>>, rounds: nat): Program
  {
    if rounds == 0 then [] else
      AwaitProgram(r, schedules, rounds - 1)
      + [Pause(if rounds <= |schedules| then schedules[rounds - 1] else [])] + [Then(MoveOn(r))]
  }

  /** receiveStop, after its first lines. */
  function CloseProgram(r: nat, throws: bool, closing: seq<Action>, joining: seq<seq<Action>>, rounds: nat): Program
  {
    [Pause(closing)] +
    if throws then [Step(CloseThrows(0))]
    else [Step(CloseReturns(0))] + AwaitProgram(r, joining, rounds) + [Step(JoinReturns(0))]
  }

  /** qpidReceiveStop after receiveStop. */
  function DropProgram(r: nat, dropping: seq<seq<Action>>, rounds: nat): Program
  {
    [Step(Erase(0))] + AwaitProgram(r, dropping, rounds) + [Step(DropReturns(0))]
  }

  /** The loop of the destructor over the receivers in order; waits tells how many rounds each join has taken. */
  function StopProgram(order: seq<nat>, throws: set<nat>, closing: seq<Action>, joining: seq<seq<Action>>,
    waits: seq<nat>)
    : Program
    requires |waits| == |order|
  {
    if order == [] then [] else
      var k := |order| - 1;
      StopProgram(order[..k], throws, closing, joining, waits[..k])
      + ([Step(TeardownNext(0))] + CloseProgram(order[k], order[k] in throws, closing, joining, waits[k])
         + [Step(Erase(0))])
  }

  /** activeReceivers.clear(). */
  function ClearProgram(order: seq<nat>, joining: seq<seq<Action>>, waits: seq<nat>): Program
    requires |waits| == |order|
  {
    if order == [] then [] else
      var k := |order| - 1;
      ClearProgram(order[..k], joining, waits[..k]) + (AwaitProgram(order[k], joining, waits[k]) + [Step(ClearNext(0))])
  }

  /** A call has waited so many rounds for the worker of receiver r, which comes closer to its end. */
  ghost predicate Awaited(r: nat, schedules: seq<seq<Action>>, rounds: nat, s0: Process, s: Process)
  {
    && r < |s0.receivers| && Kept(s0, s, MyCall, r) && !s.receivers[r].active
    && rounds + Distance(s.receivers[r].worker) <= Distance(s0.receivers[r].worker)
    && Does(Thread(MyCall), s0, AwaitProgram(r, schedules, rounds), s)
  }

  lemma AwaitBegins(r: nat, schedules: seq<seq<Action>>, s: Process)
    requires r < |s.receivers| && !s.receivers[r].active
    ensures Awaited(r, schedules, 0, s, s)
  {
    DoesNothing(Thread(MyCall), s);
  }

  /** A round of waiting, after so many others. */
  ghost predicate Waits(r: nat, schedules: seq<seq<Action>>, rounds: nat, s: Process, t: Process)
  {
    && Kept(s, t, MyCall, r) && r < |s.receivers|
    && Distance(t.receivers[r].worker) < Distance(s.receivers[r].worker)
    && Does(Thread(MyCall), s,
            [Pause(if rounds < |schedules| then schedules[rounds] else [])] + [Then(MoveOn(r))], t)
  }

  lemma WaitsOn(r: nat, schedules: seq<seq<Action>>, rounds: nat, s0: Process, s: Process, t: Process)
    requires Awaited(r, schedules, rounds, s0, s) && Waits(r, schedules, rounds, s, t)
    ensures Awaited(r, schedules, rounds + 1, s0, t)
  {
    DoesAwait(r, schedules, rounds, s0, s, t);
  }

  /** One more round of waiting. */
  lemma DoesAwait(r: nat, schedules: seq<seq<Action>>, rounds: nat, s0: Process, s: Process, t: Process)
    requires Does(Thread(MyCall), s0, AwaitProgram(r, schedules, rounds), s)
    requires Does(Thread(MyCall), s,
      [Pause(if rounds < |schedules| then schedules[rounds] else [])] + [Then(MoveOn(r))], t)
    ensures Does(Thread(MyCall), s0, AwaitProgram(r, schedules, rounds + 1), t)
  {
    var last: Program := [Pause(if rounds < |schedules| then schedules[rounds] else [])] + [Then(MoveOn(r))];
    DoesBoth(Thread(MyCall), s0, AwaitProgram(r, schedules, rounds), s, last, t);
    assert AwaitProgram(r, schedules, rounds + 1) == AwaitProgram(r, schedules, rounds) + last;
  }

  /** The steps that the awaited worker calls for have been taken. */
  lemma MovesOn(r: nat, s: Process, program: Program, t: Process)
    requires r < |s.receivers| && s.receivers[r].worker != Ended && Does(Thread(MyCall), s, program, t)
    requires program ==
      if s.receivers[r].worker.WantLock? then [Then(HolderLeaves)] + [Step(Worker(r, TakeLock))]
      else [Step(Worker(r, NextMove(s.receivers[r].worker)))]
    ensures Does(Thread(MyCall), s, [Then(MoveOn(r))], t)
  {
    var m := Thread(MyCall);
    if s.receivers[r].worker.WantLock? {
      TraceAppend(m, s, [Then(HolderLeaves)], [Step(Worker(r, TakeLock))]);
      TraceOne(m, s, Then(HolderLeaves));
      TraceOne(m, Walk(m, s, Trace(m, s, [Then(HolderLeaves)])), Step(Worker(r, TakeLock)));
    } else {
      TraceOne(m, s, Step(Worker(r, NextMove(s.receivers[r].worker))));
    }
    DoesThen(m, s, MoveOn(r), program, t);
  }

  lemma ClosesAndJoins(r: nat, closing: seq<Action>, joining: seq<seq<Action>>, rounds: nat,
                       s0: Process, s1: Process, s2: Process)
    requires Does(Thread(MyCall), s0, [Pause(closing)] + [Step(CloseReturns(0))], s1)
    requires Does(Thread(MyCall), s1, AwaitProgram(r, joining, rounds) + [Step(JoinReturns(0))], s2)
    ensures Does(Thread(MyCall), s0, CloseProgram(r, false, closing, joining, rounds), s2)
  {
    var pause: Program := [Pause(closing)];
    var close: Program := [Step(CloseReturns(0))];
    var wait := AwaitProgram(r, joining, rounds);
    DoesBoth(Thread(MyCall), s0, pause + close, s1, wait + [Step(JoinReturns(0))], s2);
    Regroup(pause, close, wait + [Step(JoinReturns(0))]);
    Regroup(close, wait, [Step(JoinReturns(0))]);
  }

  lemma StopLast(order: seq<nat>, throws: set<nat>, closing: seq<Action>, joining: seq<seq<Action>>, waits: seq<nat>)
    requires |waits| == |order| > 0
    ensures var k := |order| - 1;
      StopProgram(order, throws, closing, joining, waits) ==
        StopProgram(order[..k], throws, closing, joining, waits[..k])
        + ([Step(TeardownNext(0))] + CloseProgram(order[k], order[k] in throws, closing, joining, waits[k])
           + [Step(Erase(0))])
  {
  }

  lemma ClearLast(order: seq<nat>, joining: seq<seq<Action>>, waits: seq<nat>)
    requires |waits| == |order| > 0
    ensures var k := |order| - 1;
      ClearProgram(order, joining, waits) ==
        ClearProgram(order[..k], joining, waits[..k])
        + (AwaitProgram(order[k], joining, waits[k]) + [Step(ClearNext(0))])
  {
  }

  /** One more round of the loop of the destructor. */
  lemma DoesStop(order: seq<nat>, throws: set<nat>, closing: seq<Action>, joining: seq<seq<Action>>, waits: seq<nat>,
                 rounds: nat, s0: Process, s: Process, t: Process)
    returns (longer: seq<nat>)
    requires |waits| < |order|
    requires Does(Thread(MyCall), s0, StopProgram(order[..|waits|], throws, closing, joining, waits), s)
    requires var r := order[|waits|];
      Does(Thread(MyCall), s,
           [Step(TeardownNext(0))] + CloseProgram(r, r in throws, closing, joining, rounds) + [Step(Erase(0))], t)
    ensures longer == waits + [rounds]
    ensures Does(Thread(MyCall), s0, StopProgram(order[..|waits| + 1], throws, closing, joining, longer), t)
  {
    longer := waits + [rounds];
    var k, r := |waits|, order[|waits|];
    var done := StopProgram(order[..k], throws, closing, joining, waits);
    var last := [Step(TeardownNext(0))] + CloseProgram(r, r in throws, closing, joining, rounds) + [Step(Erase(0))];
    StopLast(order[..k + 1], throws, closing, joining, longer);
    assert order[..k + 1][..k] == order[..k] && longer[..k] == waits;
    DoesBoth(Thread(MyCall), s0, done, s, last, t);
  }

  /** One more receiver destroyed. */
  lemma DoesClear(order: seq<nat>, joining: seq<seq<Action>>, waits: seq<nat>, rounds: nat,
                  s0: Process, s: Process, t: Process)
    returns (longer: seq<nat>)
    requires |waits| < |order| && Does(Thread(MyCall), s0, ClearProgram(order[..|waits|], joining, waits), s)
    requires Does(Thread(MyCall), s, AwaitProgram(order[|waits|], joining, rounds) + [Step(ClearNext(0))], t)
    ensures longer == waits + [rounds]
    ensures Does(Thread(MyCall), s0, ClearProgram(order[..|waits| + 1], joining, longer), t)
  {
    longer := waits + [rounds];
    var k := |waits|;
    var done := ClearProgram(order[..k], joining, waits);
    var last := AwaitProgram(order[k], joining, rounds) + [Step(ClearNext(0))];
    ClearLast(order[..k + 1], joining, longer);
    assert order[..k + 1][..k] == order[..k] && longer[..k] == waits;
    DoesBoth(Thread(MyCall), s0, done, s, last, t);
  }
}
