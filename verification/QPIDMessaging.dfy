/** QPIDReceiver and QPIDMessaging as objects, method by method.

    The methods are executed by the thread of one instance, or by the worker of one receiver, and between any two steps
    of theirs all the other threads may run. Each method is proved to execute its program. What the broker does is given
    by parameters. */
module QPIDMessaging {
  import opened ReceiverMachine
  import opened ReceiverPrograms
  import opened Programs

  class QPIDReceiver {
    const mExchange: string
    const owner: nat
    var mReceivingActive: bool
    var joined: bool
    var worker: Stage
    var fetched: seq<Message>
    var delivered: seq<Message>
    var acknowledged: seq<Message>

    function View(): Receiver
      reads this
    {
      Receiver(owner, mExchange, mReceivingActive, joined, worker, fetched, delivered, acknowledged)
    }

    /** A receiver whose thread has just been started by receiveMessages. */
    constructor (owner: nat, exchange: string)
      ensures View() == Receiver(owner, exchange, true, false, AtLoop, [], [], [])
    {
      this.owner, mExchange := owner, exchange;
      mReceivingActive, joined, worker := true, false, AtLoop;
      fetched, delivered, acknowledged := [], [], [];
    }

    /** One step of waitForMessages. */
    method WorkerDo(move: WorkerMove)
      requires WorkerEnabled(View(), move)
      modifies this
      ensures View() == WorkerApply(old(View()), move)
    {
      match move
      case Check => worker := if mReceivingActive then Fetching else Ended;
      case FetchReturns(m) =>
        fetched := fetched + [m];
        worker := WantLock(m);
      case FetchThrows => worker := Handling;
      case TakeLock => worker := InCallback(worker.m);
      case CallbackReturns =>
        delivered := delivered + [worker.m];
        worker := Acknowledging;
      case AcknowledgeReturns =>
        acknowledged := fetched;
        worker := AtLoop;
      case AcknowledgeThrows => worker := Handling;
      case HandlerReturns => worker := Ended;
    }

    /** The flag and the thread object, as a stopping or destroying thread leaves them. */
    method Mark(active: bool, joined: bool)
      modifies this
      ensures View() == old(View()).(active := active, joined := joined)
    {
      mReceivingActive, this.joined := active, joined;
    }
  }

  /** Where opening a receiver may fail. */
  datatype Opening = Opens | CreateThrows | OpenThrows

  /** One instance, the first of its process, and the receivers of all instances. */
  class QPIDMessaging {
    var activeReceivers: map<string, nat>
    var receivers: seq<QPIDReceiver>
    ghost var owned: set<QPIDReceiver>
    var others: seq<Instance>
    var mMutex: Mutex

    // The progress of the call that is being executed, and the answers given so far.
    var control: Control
    var answers: seq<Answer>

    function Table(): (table: seq<Receiver>)
      reads this`receivers, receivers
      ensures |table| == |receivers| && forall r :: 0 <= r < |receivers| ==> table[r] == receivers[r].View()
    {
      var rs := receivers;
      seq(|rs|, r requires 0 <= r < |rs| reads rs => rs[r].View())
    }

    function View(): Process
      reads this, receivers
    {
      Process(Table(), [Instance(activeReceivers, control, answers)] + others, mMutex)
    }

    /** The receivers are different objects. */
    ghost predicate Separate()
      reads this`receivers, this`owned
    {
      && (forall q, r :: 0 <= q < r < |receivers| ==> receivers[q] != receivers[r])
      && (forall r :: 0 <= r < |receivers| ==> receivers[r] in owned)
    }

    /** The objects stay where they are, and new ones are new. */
    twostate predicate Extended()
      reads this`receivers, this`owned
    {
      Separate() && old(receivers) <= receivers && fresh(owned - old(owned))
    }

    ghost predicate Valid()
      reads this, receivers
    {
      Separate() && Reached(View())
    }

    constructor (instances: nat)
      requires instances > 0
      ensures Valid() && View() == Init(instances) && receivers == []
    {
      activeReceivers, receivers, mMutex, control, answers := map[], [], Mutex.Free, Idle, [];
      owned := {};
      others := seq(instances - 1, _ => Instance(map[], Idle, []));
      new;
      assert View().instances == Init(instances).instances;
      assert Path(Init(instances), [], View());
    }

    // ----- single steps -----

    method MarkReceiver(r: nat, active: bool, joined: bool)
      requires Separate() && r < |receivers|
      modifies receivers[r]
      ensures Table() == old(Table())[r := old(Table())[r].(active := active, joined := joined)]
      ensures View() == SetReceiver(old(View()), r, old(Table())[r].(active := active, joined := joined))
    {
      receivers[r].Mark(active, joined);
      assert Table() == old(Table())[r := old(Table())[r].(active := active, joined := joined)];
    }

    /** The call of this instance returns. */
    method GiveAnswer(answer: Answer)
      modifies this`control, this`answers
      ensures View() == Answered(old(View()), 0, answer)
      ensures control == Idle && answers == old(answers) + [answer]
    {
      answers := answers + [answer];
      control := Idle;
      assert View().instances == Answered(old(View()), 0, answer).instances;
    }

    /** The same, and the program counter of this instance moves on. */
    method MarkAndGo(r: nat, active: bool, joined: bool, next: Control)
      requires Separate() && r < |receivers|
      modifies this`control, receivers[r]
      ensures control == next
      ensures Table() == old(Table())[r := old(Table())[r].(active := active, joined := joined)]
      ensures View() ==
        SetControl(SetReceiver(old(View()), r, old(Table())[r].(active := active, joined := joined)), 0, next)
    {
      ghost var s := View();
      MarkReceiver(r, active, joined);
      control := next;
      assert View().instances == SetControl(s, 0, next).instances;
    }

    /** A step of the worker of receiver r. */
    method DoWorker(r: nat, move: WorkerMove)
      requires Separate() && Enabled(View(), Worker(r, move))
      modifies this`mMutex, receivers[r]
      ensures View() == Apply(old(View()), Worker(r, move))
      ensures mMutex ==
        (if move == TakeLock then HeldBy(r) else if move == CallbackReturns then Mutex.Free else old(mMutex))
    {
      receivers[r].WorkerDo(move);
      assert Table() == old(Table())[r := WorkerApply(old(Table())[r], move)];
      if move == TakeLock {
        mMutex := HeldBy(r);
      } else if move == CallbackReturns {
        mMutex := Mutex.Free;
      }
    }

    /** Other threads have marked some receivers. */
    method Adopt(table: seq<Receiver>)
      requires Separate() && |table| == |receivers|
      requires forall r :: 0 <= r < |table| ==>
        table[r] == Table()[r].(active := table[r].active, joined := table[r].joined)
      modifies owned
      ensures Table() == table
    {
      for k := 0 to |receivers|
        invariant forall r :: 0 <= r < k ==> Table()[r] == table[r]
        invariant forall r :: k <= r < |table| ==> Table()[r] == old(Table())[r]
      {
        MarkReceiver(k, table[k].active, table[k].joined);
      }
    }

    /** A step of an instance, except for the launch of a receiver. */
    method DoCall(a: Action)
      requires Separate() && Enabled(View(), a) && !a.Worker? && !a.StartThread?
      modifies this, owned
      ensures View() == Apply(old(View()), a) && receivers == old(receivers) && owned == old(owned)
    {
      var t := Apply(View(), a);
      InstanceStep(View(), a);
      NoLaunch(View(), a);
      Adopt(t.receivers);
      TakeOver(t);
    }

    /** The fields other than the receivers. */
    method TakeOver(t: Process)
      requires t.receivers == Table() && |t.instances| > 0
      modifies this`activeReceivers, this`control, this`answers, this`others, this`mMutex
      ensures View() == t
    {
      var me := t.instances[0];
      activeReceivers, control, answers := me.registry, me.control, me.answers;
      others, mMutex := t.instances[1..], t.mutex;
      assert View().instances == t.instances;
    }

    /** An instance launches a receiver. */
    method Launch(i: nat, exchange: string)
      requires Separate() && Enabled(View(), StartThread(i, exchange))
      modifies this
      ensures View() == Apply(old(View()), StartThread(i, exchange)) && Extended()
    {
      var t := Apply(View(), StartThread(i, exchange));
      var receiver := new QPIDReceiver(i, exchange);
      receivers, owned := receivers + [receiver], owned + {receiver};
      assert Table() == t.receivers;
      TakeOver(t);
    }

    /** A step of any thread. */
    method Do(a: Action)
      requires Separate() && Enabled(View(), a)
      modifies this, owned
      ensures View() == Apply(old(View()), a) && Extended()
    {
      match a
      case Worker(r, move) => DoWorker(r, move);
      case StartThread(i, exchange) => Launch(i, exchange);
      case _ => DoCall(a);
    }

    // ----- the other threads -----

    /** The turn of a step of another thread: it is taken if it can be. */
    method Offer(a: Action, mine: Mine, ghost r: nat)
      requires Valid()
      modifies this, owned
      ensures Valid() && Extended() && Kept(old(View()), View(), mine, r)
      ensures View() ==
        if Enabled(old(View()), a) && !Touches(a, mine) then Apply(old(View()), a) else old(View())
    {
      if Enabled(View(), a) && !Touches(a, mine) {
        StepKept(View(), a, mine, r);
        DoesAct(mine, View(), a);
        Do(a);
      }
    }

    /** The other threads follow a schedule as far as it can be executed: each of its steps is taken if it is possible
        when its turn comes and does not belong to the executing thread. */
    method Others(schedule: seq<Action>, mine: Mine, ghost r: nat)
      requires Valid()
      modifies this, owned
      ensures Valid() && Does(Thread(mine), old(View()), [Pause(schedule)], View())
      ensures Extended() && Kept(old(View()), View(), mine, r)
      ensures schedule == [] ==> View() == old(View())
    {
      ghost var s0 := View();
      ghost var ran: seq<Action> := [];
      FollowNone(Thread(mine), s0, schedule);
      for i := 0 to |schedule|
        invariant Valid() && Following(Thread(mine), s0, schedule, i, ran, View())
        invariant Extended() && Kept(s0, View(), mine, r)
        invariant i == 0 ==> View() == s0
      {
        ghost var s := View();
        Offer(schedule[i], mine, r);
        ran := FollowOne(Thread(mine), s0, schedule, i, ran, s, View());
      }
      FollowAll(Thread(mine), s0, schedule, ran, View());
    }

    // ----- the worker of a receiver: waitForMessages -----

    /** One step of the worker of receiver r. */
    method WorkerGoes(r: nat, move: WorkerMove, ghost mine: Mine)
      requires Valid() && Enabled(View(), Worker(r, move))
      modifies this`mMutex, receivers[r]
      ensures Valid() && Does(Thread(mine), old(View()), [Step(Worker(r, move))], View())
      ensures Table() == old(Table())[r := WorkerApply(old(Table())[r], move)]
      ensures mMutex ==
        (if move == TakeLock then HeldBy(r) else if move == CallbackReturns then Mutex.Free else old(mMutex))
    {
      DoesAct(mine, View(), Worker(r, move));
      WorkerStep(View(), r, move);
      DoWorker(r, move);
    }

    /** Whoever holds the mutex, if anybody, is in a callback, which returns. */
    method ReleaseMutex(ghost mine: Mine)
      requires Valid()
      modifies this`mMutex, owned
      ensures Valid() && Does(Thread(mine), old(View()), [Then(HolderLeaves)], View()) && mMutex == Mutex.Free
      ensures old(mMutex) == Mutex.Free ==> View() == old(View())
      ensures forall r :: 0 <= r < |receivers| ==>
        Table()[r] == old(Table())[r] || (old(Table())[r].worker.InCallback? && Closer(old(Table())[r], Table()[r]))
    {
      ghost var s := View();
      TraceOne(Thread(mine), s, Then(HolderLeaves));
      if mMutex.HeldBy? {
        MutexHolder(s);
        CallbackIsCloser(Table()[mMutex.r]);
        TraceOne(Thread(mine), s, Step(Worker(mMutex.r, CallbackReturns)));
        WorkerGoes(mMutex.r, CallbackReturns, mine);
      }
    }

    /** The worker of receiver r waits for the mutex, which is contended along a schedule; if it is then still held, its
        holder leaves its callback, and nothing else happens. */
    method AwaitMutex(r: nat, contention: seq<Action>)
      requires Valid() && r < |receivers| && Table()[r].worker.WantLock?
      modifies this, owned
      ensures Valid() && Does(Thread(MyWorker(r)), old(View()), [Pause(contention)] + [Then(HolderLeaves)], View())
      ensures Extended() && mMutex == Mutex.Free && SameWorker(old(Table())[r], Table()[r])
    {
      ghost var s0 := View();
      Others(contention, MyWorker(r), r);
      ghost var s1 := View();
      ReleaseMutex(MyWorker(r));
      DoesBoth(Thread(MyWorker(r)), s0, [Pause(contention)], s1, [Then(HolderLeaves)], View());
    }

    /** The worker of receiver r, which has fetched message m, waits for the mutex, and takes it. */
    method EnterCallback(r: nat, m: Message, contention: seq<Action>)
      requires Valid() && r < |receivers| && Table()[r].worker == WantLock(m)
      modifies this, owned
      ensures Valid() && Does(Thread(MyWorker(r)), old(View()), EnterProgram(r, contention), View())
      ensures Extended() && SameWorker(old(Table())[r].(worker := InCallback(m)), Table()[r])
    {
      ghost var s0 := View();
      AwaitMutex(r, contention);
      ghost var s1 := View();
      WorkerGoes(r, TakeLock, MyWorker(r));
      DoesBoth(Thread(MyWorker(r)), s0, [Pause(contention)] + [Then(HolderLeaves)],
               s1, [Step(Worker(r, TakeLock))], View());
    }

    /** The callback of receiver r runs while the other threads go on, and returns. */
    method LeaveCallback(r: nat, m: Message, during: seq<Action>)
      requires Valid() && r < |receivers| && Table()[r].worker == InCallback(m)
      modifies this, owned
      ensures Valid()
      ensures Does(Thread(MyWorker(r)), old(View()), [Pause(during)] + [Step(Worker(r, CallbackReturns))], View())
      ensures Extended() && SameWorker(
        old(Table())[r].(worker := Acknowledging, delivered := old(Table())[r].delivered + [m]), Table()[r])
    {
      ghost var s0 := View();
      Others(during, MyWorker(r), r);
      ghost var s1 := View();
      WorkerGoes(r, CallbackReturns, MyWorker(r));
      DoesBoth(Thread(MyWorker(r)), s0, [Pause(during)], s1, [Step(Worker(r, CallbackReturns))], View());
    }

    /** The callback of receiver r on message m, from the fetch to the acknowledgement. */
    method Deliver(r: nat, m: Message, contention: seq<Action>, during: seq<Action>)
      requires Valid() && r < |receivers| && Table()[r].worker == WantLock(m)
      modifies this, owned
      ensures Valid() && Does(Thread(MyWorker(r)), old(View()),
        EnterProgram(r, contention) + [Pause(during)] + [Step(Worker(r, CallbackReturns))], View())
      ensures Extended() && SameWorker(
        old(Table())[r].(worker := Acknowledging, delivered := old(Table())[r].delivered + [m]), Table()[r])
    {
      ghost var s0 := View();
      EnterCallback(r, m, contention);
      ghost var s1 := View();
      LeaveCallback(r, m, during);
      ghost var leave: Program := [Pause(during)] + [Step(Worker(r, CallbackReturns))];
      DoesBoth(Thread(MyWorker(r)), s0, EnterProgram(r, contention), s1, leave, View());
      assert EnterProgram(r, contention) + leave ==
        EnterProgram(r, contention) + [Pause(during)] + [Step(Worker(r, CallbackReturns))];
    }

    /** The rest of a round, once its message has been delivered. */
    method Acknowledge(r: nat, acknowledged: bool, schedule: seq<Action>)
      requires Valid() && r < |receivers| && Table()[r].worker == Acknowledging
      modifies this, owned
      ensures Valid() && Does(Thread(MyWorker(r)), old(View()),
        [Pause(schedule)] + [Step(Worker(r, if acknowledged then AcknowledgeReturns else AcknowledgeThrows))], View())
      ensures Extended() && var x := old(Table())[r];
        SameWorker(if acknowledged then x.(worker := AtLoop, acknowledged := x.fetched) else x.(worker := Handling),
                   Table()[r])
    {
      ghost var s0 := View();
      Others(schedule, MyWorker(r), r);
      ghost var s1 := View();
      var move := if acknowledged then AcknowledgeReturns else AcknowledgeThrows;
      WorkerGoes(r, move, MyWorker(r));
      DoesBoth(Thread(MyWorker(r)), s0, [Pause(schedule)], s1, [Step(Worker(r, move))], View());
    }

    /** A message, from the return of the fetch to the acknowledgement. */
    method DeliverAndAcknowledge(r: nat, m: Message, acknowledged: bool, noise: Noise)
      requires Valid() && r < |receivers| && Table()[r].worker == WantLock(m)
      modifies this, owned
      ensures Valid() && Does(Thread(MyWorker(r)), old(View()), MessageProgram(r, m, acknowledged, noise), View())
      ensures Extended() && var x := old(Table())[r].(delivered := old(Table())[r].delivered + [m]);
        SameWorker(if acknowledged then x.(worker := AtLoop, acknowledged := x.fetched) else x.(worker := Handling),
                   Table()[r])
    {
      ghost var s0 := View();
      Deliver(r, m, noise.waiting, noise.calling);
      ghost var s1 := View();
      Acknowledge(r, acknowledged, noise.acknowledging);
      ghost var deliver := EnterProgram(r, noise.waiting) + [Pause(noise.calling)] + [Step(Worker(r, CallbackReturns))];
      ghost var acknowledge: Program := [Pause(noise.acknowledging)]
        + [Step(Worker(r, if acknowledged then AcknowledgeReturns else AcknowledgeThrows))];
      DoesBoth(Thread(MyWorker(r)), s0, deliver, s1, acknowledge, View());
      assert deliver + acknowledge == MessageProgram(r, m, acknowledged, noise);
    }

    /** The fetch of a round. */
    method Fetch(r: nat, round: Round, schedule: seq<Action>)
      requires Valid() && r < |receivers| && Table()[r].worker == Fetching
      modifies this, owned
      ensures Valid() && Does(Thread(MyWorker(r)), old(View()), [Pause(schedule)] +
        [Step(Worker(r, if round.FetchFails? then FetchThrows else FetchReturns(round.m)))], View())
      ensures Extended() && SameWorker(
        match round
        case FetchFails => old(Table())[r].(worker := Handling)
        case Message(m, _) => old(Table())[r].(worker := WantLock(m), fetched := old(Table())[r].fetched + [m]),
        Table()[r])
    {
      ghost var s0 := View();
      Others(schedule, MyWorker(r), r);
      ghost var s1 := View();
      var move := if round.FetchFails? then FetchThrows else FetchReturns(round.m);
      WorkerGoes(r, move, MyWorker(r));
      DoesBoth(Thread(MyWorker(r)), s0, [Pause(schedule)], s1, [Step(Worker(r, move))], View());
    }

    /** One round of the loop of waitForMessages, after its test. */
    method ReceiveRound(r: nat, round: Round, noise: Noise)
      requires Valid() && r < |receivers| && Table()[r].worker == Fetching
      modifies this, owned
      ensures Valid() && Does(Thread(MyWorker(r)), old(View()), ReceiveProgram(r, round, noise), View())
      ensures Extended() && SameWorker(AfterRound(old(Table())[r], round), Table()[r])
    {
      ghost var s0 := View();
      Fetch(r, round, noise.fetching);
      if round.Message? {
        ghost var s1 := View();
        DeliverAndAcknowledge(r, round.m, round.acknowledged, noise);
        DoesReceive(r, round, noise, s0, s1, View());
      }
    }

    /** The test of the loop. */
    method Test(r: nat) returns (goes: bool)
      requires Valid() && r < |receivers| && Table()[r].worker == AtLoop
      modifies this`mMutex, receivers[r]
      ensures Valid() && Does(Thread(MyWorker(r)), old(View()), [Step(Worker(r, Check))], View())
      ensures goes == old(Table())[r].active
      ensures Table()[r] == old(Table())[r].(worker := if goes then Fetching else Ended)
    {
      goes := receivers[r].mReceivingActive;
      WorkerGoes(r, Check, MyWorker(r));
    }

    /** The test of the loop, and the round that follows if the receiver has not been told to stop. */
    method TestAndReceive(r: nat, round: Round, noise: Noise) returns (went: bool)
      requires Valid() && r < |receivers| && Table()[r].worker == AtLoop
      modifies this, owned
      ensures Valid() && Extended() && went == old(Table())[r].active
      ensures Does(Thread(MyWorker(r)), old(View()),
                   if went then RoundProgram(r, round, noise) else [Step(Worker(r, Check))], View())
      ensures if went then SameWorker(AfterRound(old(Table())[r], round), Table()[r])
              else Table()[r] == old(Table())[r].(worker := Ended)
    {
      ghost var s0 := View();
      went := Test(r);
      if went {
        ghost var s1 := View();
        AnyStage(old(Table())[r], Fetching, round);
        ReceiveRound(r, round, noise);
        DoesBoth(Thread(MyWorker(r)), s0, [Step(Worker(r, Check))], s1, ReceiveProgram(r, round, noise), View());
      }
    }

    /** The test of the loop at its head, after so many rounds, and its next round. */
    method NextRound(r: nat, script: seq<Round>, rounds: nat, noise: nat -> Noise, ghost x: Receiver, ghost s0: Process)
      returns (exit: Exit)
      requires Valid() && r < |receivers| && Table()[r].worker == AtLoop
      requires rounds < |script| && Progress(x, script, rounds, Inside, Table()[r]) && x.fetched == x.acknowledged
      requires HasDone(r, script, noise, rounds, Inside, s0, View())
      modifies this, owned
      ensures Valid() && Extended()
      ensures HasDone(r, script, noise, if exit == ByTest then rounds else rounds + 1, exit, s0, View())
      ensures Progress(x, script, if exit == ByTest then rounds else rounds + 1, exit, Table()[r])
    {
      ghost var y, s := Table()[r], View();
      var went := TestAndReceive(r, script[rounds], noise(rounds));
      if went {
        HeadMoves(x, script, rounds, y, Table()[r]);
        exit := if Smooth(script[rounds]) then Inside else ByException;
      } else {
        HeadEnds(x, script, rounds, y, Table()[r]);
        exit := ByTest;
      }
      DoesNext(r, script, noise, rounds, exit, s0, s, View());
    }

    /** The test of the loop when the script has no more messages. */
    method LastTest(r: nat, script: seq<Round>, ghost x: Receiver)
      requires Valid() && r < |receivers| && Table()[r].worker == AtLoop
      requires Progress(x, script, |script|, Inside, Table()[r])
      modifies this`mMutex, receivers[r]
      ensures Valid() && Does(Thread(MyWorker(r)), old(View()), [Step(Worker(r, Check))], View())
      ensures Progress(x, script, |script|, ByTest, Table()[r])
    {
      ghost var y := Table()[r];
      var goes := Test(r);
      HeadEnds(x, script, |script|, y, Table()[r]);
    }

    /** The loop of waitForMessages, inside its try block, as far as the script goes. */
    method ReceiveRounds(r: nat, script: seq<Round>, noise: nat -> Noise) returns (rounds: nat, exit: Exit)
      requires Valid() && r < |receivers| && Table()[r].worker == AtLoop
      requires Table()[r].fetched == Table()[r].acknowledged
      modifies this, owned
      ensures Valid() && Extended() && (exit == Inside ==> rounds == |script|)
      ensures HasDone(r, script, noise, rounds, exit, old(View()), View())
      ensures Progress(old(Table())[r], script, rounds, exit, Table()[r])
    {
      rounds, exit := 0, Inside;
      ghost var s0 := View();
      ghost var x := Table()[r];
      HeadBegins(x, script);
      HasDoneNothing(r, script, noise, s0);
      while exit == Inside && rounds < |script|
        invariant Valid() && Extended() && HasDone(r, script, noise, rounds, exit, s0, View())
        invariant rounds <= |script| && Progress(x, script, rounds, exit, Table()[r])
        decreases |script| - rounds, exit == Inside
      {
        exit := NextRound(r, script, rounds, noise, x, s0);
        rounds := if exit == ByTest then rounds else rounds + 1;
      }
    }

    /** The loop of waitForMessages, inside its try block, along a script of rounds. */
    method ReceiveLoop(r: nat, script: seq<Round>, noise: nat -> Noise) returns (rounds: nat, exit: Exit)
      requires Valid() && r < |receivers| && Table()[r].worker == AtLoop
      requires Table()[r].fetched == Table()[r].acknowledged
      modifies this, owned
      ensures Valid() && Extended() && HasDone(r, script, noise, rounds, exit, old(View()), View())
      ensures exit != Inside && Progress(old(Table())[r], script, rounds, exit, Table()[r])
    {
      ghost var s0 := View();
      ghost var x := Table()[r];
      rounds, exit := ReceiveRounds(r, script, noise);
      if exit == Inside {
        ghost var s := View();
        LastTest(r, script, x);
        DoesLast(r, script, noise, s0, s, View());
        exit := ByTest;
      }
    }

    /** The catch block of waitForMessages. */
    method HandleException(r: nat, script: seq<Round>, rounds: nat, schedule: seq<Action>, ghost x: Receiver)
      requires Valid() && r < |receivers|
      requires Progress(x, script, rounds, ByException, Table()[r]) && x.fetched == x.delivered == x.acknowledged
      modifies this, owned
      ensures Valid()
      ensures Does(Thread(MyWorker(r)), old(View()), [Pause(schedule)] + [Step(Worker(r, HandlerReturns))], View())
      ensures Extended() && Waited(x, script, rounds, Table()[r])
    {
      ghost var s0 := View();
      Others(schedule, MyWorker(r), r);
      ghost var s1 := View();
      WaitedUntilThrow(x, script, rounds, Table()[r]);
      WorkerGoes(r, HandlerReturns, MyWorker(r));
      DoesBoth(Thread(MyWorker(r)), s0, [Pause(schedule)], s1, [Step(Worker(r, HandlerReturns))], View());
    }

    /** waitForMessages along a script of rounds, executed by the worker of receiver r while all other threads run. */
    method WaitForMessages(r: nat, script: seq<Round>, noise: nat -> Noise) returns (rounds: nat, exit: Exit)
      requires Valid() && r < |receivers| && Table()[r].worker == AtLoop
      modifies this, owned
      ensures Valid() && Extended() && rounds <= |script| && exit != Inside
      ensures Does(Thread(MyWorker(r)), old(View()), WaitProgram(r, script[..rounds], noise, exit), View())
      ensures Waited(old(Table())[r], script, rounds, Table()[r])
    {
      ghost var s0 := View();
      ReachedReceiver(s0, r);
      ghost var x := Table()[r];
      rounds, exit := ReceiveLoop(r, script, noise);
      if exit == ByException {
        ghost var s := View();
        HandleException(r, script, rounds, noise(rounds).fetching, x);
        DoesCatch(r, script, noise, rounds, s0, s, View());
      } else {
        WaitedUntilTest(x, script, rounds, Table()[r]);
      }
    }

    // ----- the calls of the instance -----

    /** A call that answers at once. */
    method AnswerNow(answer: Answer, ghost a: Action)
      requires Valid() && Enabled(View(), a) && control == Idle
      requires Apply(View(), a) == Answered(View(), 0, answer)
      modifies this`control, this`answers
      ensures Valid() && Does(Thread(MyCall), old(View()), [Step(a)], View())
      ensures View() == Answered(old(View()), 0, answer) && control == Idle && answers == old(answers) + [answer]
    {
      DoesAct(MyCall, View(), a);
      GiveAnswer(answer);
    }

    /** qpidReceiveMessages. It may also end with an exception, and then nothing has changed. */
    method QpidReceiveMessages(exchange: string, callback: bool, opening: Opening, schedule: seq<Action>)
      returns (threw: bool, ret: Status)
      requires Valid() && control == Idle
      modifies this, owned
      ensures Valid() && Extended() && control == Idle
      ensures Does(Thread(MyCall), old(View()),
        if !callback then [Step(StartNull(0, exchange))]
        else if exchange in old(activeReceivers) then [Step(StartAlready(0, exchange))]
        else match opening
             case CreateThrows => [Step(StartThrows(0, exchange))]
             case OpenThrows => [Step(StartFails(0, exchange))]
             case Opens => [Step(StartThread(0, exchange))] + [Pause(schedule)] + [Step(Register(0))], View())
      ensures threw <==> callback && exchange !in old(activeReceivers) && opening == CreateThrows
      ensures threw ==> View() == old(View())
      ensures !threw ==> answers == old(answers) + [Started(exchange, callback, ret)]
      ensures !threw ==> ret == (if !callback then QPID_ERROR
                                 else if exchange in old(activeReceivers) then QPID_ALREADY
                                 else if opening == Opens then QPID_SUCCESS else QPID_ERROR)
      ensures !threw && ret == QPID_SUCCESS ==> activeReceivers == old(activeReceivers)[exchange := |old(receivers)|]
      ensures threw || ret != QPID_SUCCESS ==> activeReceivers == old(activeReceivers) && Table() == old(Table())
      ensures !threw && ret == QPID_SUCCESS && schedule == [] ==>
        Table() == old(Table()) + [Receiver(0, exchange, true, false, AtLoop, [], [], [])]
    {
      threw, ret := false, QPID_ERROR;
      if callback {
        if exchange in activeReceivers {
          ret := QPID_ALREADY;
          AnswerNow(Started(exchange, callback, ret), StartAlready(0, exchange));
        } else if opening == CreateThrows {
          threw := true;
          DoesAct(MyCall, View(), StartThrows(0, exchange));
        } else if opening == OpenThrows {
          AnswerNow(Started(exchange, callback, ret), StartFails(0, exchange));
        } else {
          StartAndRegister(exchange, schedule);
          ret := QPID_SUCCESS;
        }
      } else {
        AnswerNow(Started(exchange, callback, ret), StartNull(0, exchange));
      }
    }

    /** The thread of a new receiver is started, the other threads run, and the receiver enters the registry. */
    method StartAndRegister(exchange: string, schedule: seq<Action>)
      requires Valid() && control == Idle && exchange !in activeReceivers
      modifies this, owned
      ensures Valid() && Extended() && control == Idle
      ensures Does(Thread(MyCall), old(View()),
                   [Step(StartThread(0, exchange))] + [Pause(schedule)] + [Step(Register(0))], View())
      ensures answers == old(answers) + [Started(exchange, true, QPID_SUCCESS)]
      ensures |old(receivers)| < |receivers| && activeReceivers == old(activeReceivers)[exchange := |old(receivers)|]
      ensures schedule == [] ==> Table() == old(Table()) + [Receiver(0, exchange, true, false, AtLoop, [], [], [])]
    {
      ghost var s0 := View();
      var r := |receivers|;
      StartAndPause(exchange, schedule);
      ghost var s2 := View();
      EnterReceiver(r, exchange);
      DoesBoth(Thread(MyCall), s0, [Step(StartThread(0, exchange))] + [Pause(schedule)],
               s2, [Step(Register(0))], View());
    }

    /** receiveMessages, and the other threads until the receiver is registered. */
    method StartAndPause(exchange: string, schedule: seq<Action>)
      requires Valid() && control == Idle && exchange !in activeReceivers
      modifies this, owned
      ensures Valid() && Extended()
      ensures Does(Thread(MyCall), old(View()), [Step(StartThread(0, exchange))] + [Pause(schedule)], View())
      ensures activeReceivers == old(activeReceivers) && answers == old(answers)
      ensures |old(receivers)| < |receivers| && control == Registering(|old(receivers)|)
      ensures Table()[|old(receivers)|].exchange == exchange
      ensures schedule == [] ==> Table() == old(Table()) + [Receiver(0, exchange, true, false, AtLoop, [], [], [])]
    {
      ghost var s0 := View();
      var r := |receivers|;
      StartReceiver(exchange);
      ghost var s1 := View();
      Others(schedule, MyCall, r);
      DoesBoth(Thread(MyCall), s0, [Step(StartThread(0, exchange))], s1, [Pause(schedule)], View());
    }

    /** receiveMessages, on a new receiver that could be opened. */
    method StartReceiver(exchange: string)
      requires Valid() && control == Idle && exchange !in activeReceivers
      modifies this`receivers, this`owned, this`control
      ensures Valid() && Extended() && Does(Thread(MyCall), old(View()), [Step(StartThread(0, exchange))], View())
      ensures activeReceivers == old(activeReceivers) && answers == old(answers)
      ensures |receivers| == |old(receivers)| + 1 && control == Registering(|old(receivers)|)
      ensures Table() == old(Table()) + [Receiver(0, exchange, true, false, AtLoop, [], [], [])]
    {
      ghost var s := View();
      DoesAct(MyCall, s, StartThread(0, exchange));
      var receiver := new QPIDReceiver(0, exchange);
      control := Registering(|receivers|);
      receivers, owned := receivers + [receiver], owned + {receiver};
      assert Table() == s.receivers + [Receiver(0, exchange, true, false, AtLoop, [], [], [])];
      assert View().instances == Apply(s, StartThread(0, exchange)).instances;
    }

    /** emplace, and the return of the call. */
    method EnterReceiver(r: nat, exchange: string)
      requires Valid() && control == Registering(r) && r < |receivers| && Table()[r].exchange == exchange
      modifies this`activeReceivers, this`control, this`answers
      ensures Valid() && Does(Thread(MyCall), old(View()), [Step(Register(0))], View())
      ensures control == Idle && activeReceivers == old(activeReceivers)[exchange := r]
      ensures answers == old(answers) + [Started(exchange, true, QPID_SUCCESS)]
    {
      ghost var s := View();
      DoesAct(MyCall, s, Register(0));
      activeReceivers := activeReceivers[exchange := r];
      answers := answers + [Started(exchange, true, QPID_SUCCESS)];
      control := Idle;
      assert View().instances == Apply(s, Register(0)).instances;
    }

    /** The program counter of this instance moves on, and nothing else. */
    method GoTo(next: Control, ghost a: Action)
      requires Valid() && Enabled(View(), a) && Apply(View(), a) == SetControl(View(), 0, next)
      modifies this`control
      ensures Valid() && control == next && Does(Thread(MyCall), old(View()), [Step(a)], View())
    {
      ghost var s := View();
      DoesAct(MyCall, s, a);
      control := next;
      assert View().instances == SetControl(s, 0, next).instances;
    }

    // ----- stopping -----

    /** The worker of receiver r, told to stop, runs to its end, and the other threads run along the schedules. */
    method AwaitWorker(r: nat, schedules: seq<seq<Action>>) returns (ghost rounds: nat)
      requires Valid() && r < |receivers| && !Table()[r].active
      modifies this, owned
      ensures Valid() && Does(Thread(MyCall), old(View()), AwaitProgram(r, schedules, rounds), View())
      ensures Extended() && Kept(old(View()), View(), MyCall, r) && Table()[r].worker == Ended
      ensures rounds <= Distance(old(Table())[r].worker)
    {
      ghost var s0 := View();
      ghost var waited := (k: nat, s: Process) => Awaited(r, schedules, k, s0, s);
      AwaitBegins(r, schedules, s0);
      forall k: nat, s, t | waited(k, s) && Waits(r, schedules, k, s, t) ensures waited(k + 1, t) {
        WaitsOn(r, schedules, k, s0, s, t);
      }
      rounds := AwaitOn(r, schedules, 0, waited);
    }

    /** As long as the worker has not ended, another round is waited; waited is what holds after so many rounds. */
    method AwaitOn(r: nat, schedules: seq<seq<Action>>, c: nat, ghost waited: (nat, Process) -> bool)
      returns (ghost rounds: nat)
      requires Valid() && r < |receivers| && !Table()[r].active && waited(c, View())
      requires forall k: nat, s, t :: waited(k, s) && Waits(r, schedules, k, s, t) ==> waited(k + 1, t)
      modifies this, owned
      ensures Valid() && Extended() && r < |receivers| && receivers[r].worker == Ended && waited(rounds, View())
      decreases Distance(receivers[r].worker)
    {
      rounds := c;
      if receivers[r].worker != Ended {
        ghost var s := View();
        AwaitStep(r, if c < |schedules| then schedules[c] else []);
        assert Waits(r, schedules, c, s, View());
        rounds := AwaitOn(r, schedules, c + 1, waited);
      }
    }

    /** The other threads run, and the worker of receiver r takes a step if it has not ended. */
    method AwaitStep(r: nat, schedule: seq<Action>)
      requires Valid() && r < |receivers| && !Table()[r].active && Table()[r].worker != Ended
      modifies this, owned
      ensures Valid() && Does(Thread(MyCall), old(View()), [Pause(schedule)] + [Then(MoveOn(r))], View())
      ensures Extended() && Kept(old(View()), View(), MyCall, r)
      ensures Distance(Table()[r].worker) < Distance(old(Table())[r].worker)
    {
      ghost var s0 := View();
      Others(schedule, MyCall, r);
      ghost var s1 := View();
      MoveIfAlive(r);
      DoesBoth(Thread(MyCall), s0, [Pause(schedule)], s1, [Then(MoveOn(r))], View());
    }

    method MoveIfAlive(r: nat)
      requires Valid() && r < |receivers| && !Table()[r].active
      modifies this`mMutex, owned
      ensures Valid() && Does(Thread(MyCall), old(View()), [Then(MoveOn(r))], View())
      ensures Closer(old(Table())[r], Table()[r])
      ensures Table()[r].worker == Ended || Distance(Table()[r].worker) < Distance(old(Table())[r].worker)
    {
      if receivers[r].worker != Ended {
        MoveWorker(r);
      } else {
        TraceOne(Thread(MyCall), View(), Then(MoveOn(r)));
      }
    }

    /** One step of the worker of receiver r, for which the mutex becomes free if that is what it waits for. */
    method MoveWorker(r: nat)
      requires Valid() && r < |receivers| && !Table()[r].active && Table()[r].worker != Ended
      modifies this`mMutex, owned
      ensures Valid() && Does(Thread(MyCall), old(View()), [Then(MoveOn(r))], View())
      ensures Closer(old(Table())[r], Table()[r]) && Distance(Table()[r].worker) < Distance(old(Table())[r].worker)
    {
      ghost var s0 := View();
      NextIsCloser(Table()[r]);
      if receivers[r].worker.WantLock? {
        ReleaseMutex(MyCall);
        ghost var s1 := View();
        WorkerGoes(r, TakeLock, MyCall);
        DoesBoth(Thread(MyCall), s0, [Then(HolderLeaves)], s1, [Step(Worker(r, TakeLock))], View());
        MovesOn(r, s0, [Then(HolderLeaves)] + [Step(Worker(r, TakeLock))], View());
      } else {
        WorkerGoes(r, NextMove(receivers[r].worker), MyCall);
        MovesOn(r, s0, [Step(Worker(r, NextMove(s0.receivers[r].worker)))], View());
      }
    }

    /** The first lines of receiveStop on receiver r, for the given reason. */
    method TellToStop(r: nat, why: Why)
      requires Separate() && r < |receivers|
      modifies this`control, receivers[r]
      ensures View() == BeginStop(old(View()), 0, r, why)
      ensures Table() == old(Table())[r := old(Table())[r].(active := false)]
      ensures control == Stopping(r, if old(Table())[r].active then Close else After(QPID_INVALID_PARAM), why)
    {
      if receivers[r].mReceivingActive {
        MarkAndGo(r, false, receivers[r].joined, Stopping(r, Close, why));
      } else {
        MarkAndGo(r, false, receivers[r].joined, Stopping(r, After(QPID_INVALID_PARAM), why));
      }
    }

    /** The other threads run while the connection is being closed, or fails to be closed. */
    method CloseConnection(throws: bool, closing: seq<Action>)
      requires Valid() && control.Stopping? && control.at == Close
      requires control.r < |receivers| && !Table()[control.r].active
      modifies this, owned
      ensures Valid() && Extended()
      ensures Does(Thread(MyCall), old(View()),
                   [Pause(closing)] + [Step(if throws then CloseThrows(0) else CloseReturns(0))], View())
      ensures control == old(control).(at := if throws then After(QPID_ERROR) else Join)
      ensures activeReceivers == old(activeReceivers) && answers == old(answers) && !Table()[control.r].active
    {
      ghost var s0 := View();
      Others(closing, MyCall, control.r);
      ghost var s1 := View();
      if throws {
        GoTo(control.(at := After(QPID_ERROR)), CloseThrows(0));
      } else {
        GoTo(control.(at := Join), CloseReturns(0));
      }
      DoesBoth(Thread(MyCall), s0, [Pause(closing)],
               s1, [Step(if throws then CloseThrows(0) else CloseReturns(0))], View());
    }

    /** The rest of receiveStop: close the connection, which may throw, and otherwise join the worker. */
    method CloseAndJoin(closeThrows: bool, closing: seq<Action>, joining: seq<seq<Action>>)
      returns (ret: Status, ghost rounds: nat)
      requires Valid() && control.Stopping? && control.at == Close
      requires control.r < |receivers| && !Table()[control.r].active
      modifies this, owned
      ensures Valid() && Extended() && control == old(control).(at := After(ret))
      ensures Does(Thread(MyCall), old(View()), CloseProgram(control.r, closeThrows, closing, joining, rounds), View())
      ensures activeReceivers == old(activeReceivers) && answers == old(answers)
      ensures ret == (if closeThrows then QPID_ERROR else QPID_SUCCESS)
      ensures !Table()[control.r].active
      ensures ret == QPID_SUCCESS ==> Table()[control.r].worker == Ended && Table()[control.r].joined
    {
      ghost var s0 := View();
      CloseConnection(closeThrows, closing);
      ret, rounds := QPID_ERROR, 0;
      if !closeThrows {
        ghost var s1 := View();
        rounds := JoinWorker(joining);
        ClosesAndJoins(control.r, closing, joining, rounds, s0, s1, View());
        ret := QPID_SUCCESS;
      }
    }

    /** join, of a worker that has been told to stop. */
    method JoinWorker(schedules: seq<seq<Action>>) returns (ghost rounds: nat)
      requires Valid() && control.Stopping? && control.at == Join
      requires control.r < |receivers| && !Table()[control.r].active
      modifies this, owned
      ensures Valid() && Extended() && control == old(control).(at := After(QPID_SUCCESS))
      ensures Does(Thread(MyCall), old(View()),
                   AwaitProgram(control.r, schedules, rounds) + [Step(JoinReturns(0))], View())
      ensures activeReceivers == old(activeReceivers) && answers == old(answers)
      ensures !Table()[control.r].active && Table()[control.r].worker == Ended && Table()[control.r].joined
    {
      ghost var s0 := View();
      rounds := AwaitWorker(control.r, schedules);
      ghost var s1 := View();
      JoinEnded();
      DoesBoth(Thread(MyCall), s0, AwaitProgram(control.r, schedules, rounds), s1, [Step(JoinReturns(0))], View());
    }

    /** join returns, as the worker has ended. */
    method JoinEnded()
      requires Valid() && control.Stopping? && control.at == Join
      requires control.r < |receivers| && Table()[control.r].worker == Ended
      modifies this`control, receivers[control.r]
      ensures Valid() && Does(Thread(MyCall), old(View()), [Step(JoinReturns(0))], View())
      ensures control == old(control).(at := After(QPID_SUCCESS))
      ensures Table() == old(Table())[control.r := old(Table())[control.r].(joined := true)]
    {
      Joined(View());
      DoesAct(MyCall, View(), JoinReturns(0));
      MarkAndGo(control.r, receivers[control.r].mReceivingActive, true, control.(at := After(QPID_SUCCESS)));
    }

    /** receiveStop on receiver r, called by the step a: QPID_INVALID_PARAM if it is not active; otherwise it is told to
        stop, and joined exactly if closing the connection does not throw. */
    method ReceiveStop(r: nat, why: Why, closeThrows: bool, closing: seq<Action>, joining: seq<seq<Action>>,
                       ghost a: Action)
      returns (ret: Status, ghost rounds: nat)
      requires Separate() && r < |receivers| && (Table()[r].active ==> Reached(View()))
      requires Does(Thread(MyCall), View(), [Step(a)], BeginStop(View(), 0, r, why))
      modifies this, owned
      ensures Extended() && control == Stopping(r, After(ret), why)
      ensures Does(Thread(MyCall), old(View()),
        if old(Table())[r].active then [Step(a)] + CloseProgram(r, closeThrows, closing, joining, rounds)
        else [Step(a)], View())
      ensures activeReceivers == old(activeReceivers) && answers == old(answers)
      ensures ret == (if !old(Table())[r].active then QPID_INVALID_PARAM
                      else if closeThrows then QPID_ERROR else QPID_SUCCESS)
      ensures !Table()[r].active && (old(Table())[r].active ==> Valid())
      ensures ret == QPID_SUCCESS ==> Table()[r].worker == Ended && Table()[r].joined
      ensures ret == QPID_ERROR ==> !Table()[r].joined
    {
      ghost var s0 := View();
      TellToStop(r, why);
      ret, rounds := QPID_INVALID_PARAM, 0;
      if control.at == Close {
        ghost var s1 := View();
        DoesIsPath(MyCall, s0, [Step(a)], s1);
        ret, rounds := CloseAndJoin(closeThrows, closing, joining);
        DoesBoth(Thread(MyCall), s0, [Step(a)],
                 s1, CloseProgram(r, closeThrows, closing, joining, rounds), View());
        NotJoined(View(), 0);
      }
    }

    /** qpidReceiveStop. It answers QPID_INVALID_PARAM exactly if the exchange is not registered, and otherwise removes
        it, also if closing the connection throws, and then the worker of its receiver has ended. */
    method QpidReceiveStop(exchange: string, closeThrows: bool,
                           closing: seq<Action>, joining: seq<seq<Action>>, dropping: seq<seq<Action>>)
      returns (ret: Status, ghost joined: nat, ghost dropped: nat)
      requires Valid() && control == Idle
      modifies this, owned
      ensures Valid() && Extended() && control == Idle
      ensures Does(Thread(MyCall), old(View()),
        if exchange !in old(activeReceivers) then [Step(StopUnknown(0, exchange))]
        else [Step(StopBegin(0, exchange))]
             + CloseProgram(old(activeReceivers)[exchange], closeThrows, closing, joining, joined)
             + DropProgram(old(activeReceivers)[exchange], dropping, dropped), View())
      ensures answers == old(answers) + [Stopped(exchange, ret)] && activeReceivers == old(activeReceivers) - {exchange}
      ensures ret == (if exchange !in old(activeReceivers) then QPID_INVALID_PARAM
                      else if closeThrows then QPID_ERROR else QPID_SUCCESS)
      ensures exchange in old(activeReceivers) ==>
        var r := old(activeReceivers)[exchange]; r < |receivers| && Table()[r].worker == Ended
    {
      joined, dropped := 0, 0;
      if exchange !in activeReceivers {
        ret := QPID_INVALID_PARAM;
        AnswerNow(Stopped(exchange, ret), StopUnknown(0, exchange));
      } else {
        ret, joined, dropped := StopRegistered(exchange, closeThrows, closing, joining, dropping);
      }
    }

    /** receiveStop on a registered receiver, and erase. */
    method StopRegistered(exchange: string, closeThrows: bool,
                          closing: seq<Action>, joining: seq<seq<Action>>, dropping: seq<seq<Action>>)
      returns (ret: Status, ghost joined: nat, ghost dropped: nat)
      requires Valid() && control == Idle && exchange in activeReceivers
      modifies this, owned
      ensures Valid() && Extended() && control == Idle && activeReceivers == old(activeReceivers) - {exchange}
      ensures var r := old(activeReceivers)[exchange];
        && Does(Thread(MyCall), old(View()), [Step(StopBegin(0, exchange))]
             + CloseProgram(r, closeThrows, closing, joining, joined) + DropProgram(r, dropping, dropped), View())
        && r < |receivers| && Table()[r].worker == Ended
      ensures answers == old(answers) + [Stopped(exchange, ret)]
      ensures ret == (if closeThrows then QPID_ERROR else QPID_SUCCESS)
    {
      ghost var s0 := View();
      var r := activeReceivers[exchange];
      StopCalled(s0, exchange);
      DoesAct(MyCall, s0, StopBegin(0, exchange));
      ret, joined := ReceiveStop(r, Call(exchange), closeThrows, closing, joining, StopBegin(0, exchange));
      ghost var s1 := View();
      dropped := EraseAndDrop(exchange, dropping);
      DoesBoth(Thread(MyCall), s0,
               [Step(StopBegin(0, exchange))] + CloseProgram(r, closeThrows, closing, joining, joined),
               s1, DropProgram(r, dropping, dropped), View());
    }

    /** The entry is erased, and with it the receiver is destroyed, which joins its worker if that has not been done. */
    method EraseAndDrop(exchange: string, schedules: seq<seq<Action>>) returns (ghost rounds: nat)
      requires Valid() && control.Stopping? && control.at.After? && control.why == Call(exchange)
      requires control.r < |receivers| && !Table()[control.r].active
      modifies this, owned
      ensures Valid() && Extended()
      ensures Does(Thread(MyCall), old(View()), DropProgram(old(control).r, schedules, rounds), View())
      ensures control == Idle && activeReceivers == old(activeReceivers) - {exchange}
      ensures answers == old(answers) + [Stopped(exchange, old(control).at.ret)]
      ensures Table()[old(control).r].worker == Ended
    {
      ghost var s0 := View();
      var r := control.r;
      EraseEntry(exchange);
      ghost var s1 := View();
      rounds := AwaitWorker(r, schedules);
      DoesBoth(Thread(MyCall), s0, [Step(Erase(0))], s1, AwaitProgram(r, schedules, rounds), View());
      ghost var s2 := View();
      DropReceiver(exchange);
      DoesBoth(Thread(MyCall), s0, [Step(Erase(0))] + AwaitProgram(r, schedules, rounds),
               s2, [Step(DropReturns(0))], View());
    }

    method EraseEntry(exchange: string)
      requires Valid() && control.Stopping? && control.at.After? && control.why == Call(exchange)
      requires control.r < |receivers|
      modifies this`activeReceivers, this`control
      ensures Valid() && Does(Thread(MyCall), old(View()), [Step(Erase(0))], View())
      ensures activeReceivers == old(activeReceivers) - {exchange}
      ensures control == old(control).(at := Drop(old(control).at.ret))
    {
      ghost var s := View();
      DoesAct(MyCall, s, Erase(0));
      activeReceivers := activeReceivers - {exchange};
      control := control.(at := Drop(control.at.ret));
      assert View().instances == Apply(s, Erase(0)).instances;
    }

    /** ~QPIDReceiver, of a receiver whose worker has ended, and the return of the call. */
    method DropReceiver(exchange: string)
      requires Valid() && control.Stopping? && control.at.Drop? && control.why == Call(exchange)
      requires control.r < |receivers| && Table()[control.r].worker == Ended
      modifies this`control, this`answers, receivers[control.r]
      ensures Valid() && Does(Thread(MyCall), old(View()), [Step(DropReturns(0))], View())
      ensures control == Idle && answers == old(answers) + [Stopped(exchange, old(control).at.ret)]
      ensures Table()[old(control).r].worker == Ended
    {
      Dropped(View());
      DoesAct(MyCall, View(), DropReturns(0));
      MarkReceiver(control.r, false, true);
      GiveAnswer(Stopped(exchange, control.at.ret));
    }

    // ----- the destructor -----

    /** ~QPIDMessaging, traversing the map in the given order: every receiver is stopped, closing any connection may
        throw, and then the map is cleared, which destroys them. No entry and no worker is left. */
    method Destroy(order: seq<nat>, closeThrows: set<nat>, closing: seq<Action>, joining: seq<seq<Action>>)
      returns (ghost stops: seq<nat>, ghost clears: seq<nat>)
      requires Valid() && control == Idle && Lists(activeReceivers, order)
      modifies this, owned
      ensures Valid() && Extended() && |stops| == |clears| == |order|
      ensures Does(Thread(MyCall), old(View()),
                   [Step(TeardownBegin(0, order))] + StopProgram(order, closeThrows, closing, joining, stops)
                   + ([Step(ClearBegin(0, order))] + ClearProgram(order, joining, clears) + [Step(ClearNext(0))]),
                     View())
      ensures control == Destroyed && activeReceivers == map[]
      ensures forall r :: 0 <= r < |receivers| && Table()[r].owner == 0 ==>
        Table()[r].worker == Ended && Table()[r].joined
    {
      ghost var s0 := View();
      stops := StopAll(order, closeThrows, closing, joining);
      ghost var s1 := View();
      clears := ClearAll(order, joining);
      DoesBoth(Thread(MyCall), s0,
               [Step(TeardownBegin(0, order))] + StopProgram(order, closeThrows, closing, joining, stops), s1,
               [Step(ClearBegin(0, order))] + ClearProgram(order, joining, clears) + [Step(ClearNext(0))], View());
      NoWorkerLeft(View());
    }

    method StopAll(order: seq<nat>, closeThrows: set<nat>, closing: seq<Action>, joining: seq<seq<Action>>)
      returns (ghost stops: seq<nat>)
      requires Valid() && control == Idle && Lists(activeReceivers, order)
      modifies this, owned
      ensures Valid() && Extended() && |stops| == |order|
      ensures Does(Thread(MyCall), old(View()),
                   [Step(TeardownBegin(0, order))] + StopProgram(order, closeThrows, closing, joining, stops), View())
      ensures control == Loop([]) && activeReceivers == old(activeReceivers)
    {
      ghost var s0 := View();
      GoTo(Loop(order), TeardownBegin(0, order));
      ghost var s1 := View();
      stops := StopLoop(closeThrows, closing, joining);
      DoesBoth(Thread(MyCall), s0, [Step(TeardownBegin(0, order))],
               s1, StopProgram(order, closeThrows, closing, joining, stops), View());
    }

    /** The loop of the destructor. */
    method StopLoop(closeThrows: set<nat>, closing: seq<Action>, joining: seq<seq<Action>>)
      returns (ghost stops: seq<nat>)
      requires Valid() && control.Loop?
      modifies this, owned
      ensures Valid() && Extended() && |stops| == |old(control).rest|
      ensures Does(Thread(MyCall), old(View()),
                   StopProgram(old(control).rest, closeThrows, closing, joining, stops), View())
      ensures control == Loop([]) && activeReceivers == old(activeReceivers)
    {
      ghost var s0 := View();
      ghost var order := control.rest;
      stops := [];
      DoesNothing(Thread(MyCall), s0);
      while control.Loop? && control.rest != []
        invariant Valid() && Extended() && activeReceivers == old(activeReceivers)
        invariant control.Loop? && |stops| <= |order| && control.rest == order[|stops|..]
        invariant Does(Thread(MyCall), s0, StopProgram(order[..|stops|], closeThrows, closing, joining, stops), View())
        decreases |control.rest|
      {
        stops := StopRound(order, closeThrows, closing, joining, stops, s0);
      }
      assert order[..|stops|] == order;
    }

    /** One round of that loop, which began in s0. */
    method StopRound(ghost order: seq<nat>, closeThrows: set<nat>, closing: seq<Action>, joining: seq<seq<Action>>,
                     ghost stops: seq<nat>, ghost s0: Process)
      returns (ghost longer: seq<nat>)
      requires Valid() && control.Loop? && |stops| < |order| && control.rest == order[|stops|..]
      requires Does(Thread(MyCall), s0, StopProgram(order[..|stops|], closeThrows, closing, joining, stops), View())
      modifies this, owned
      ensures Valid() && Extended() && activeReceivers == old(activeReceivers)
      ensures |longer| == |stops| + 1 && control == Loop(order[|longer|..])
      ensures Does(Thread(MyCall), s0, StopProgram(order[..|longer|], closeThrows, closing, joining, longer), View())
    {
      ghost var s, rounds := View(), 0;
      rounds := StopNext(control.rest[0] in closeThrows, closing, joining);
      longer := DoesStop(order, closeThrows, closing, joining, stops, rounds, s0, s, View());
    }

    /** One round of that loop: receiveStop on the next receiver. */
    method StopNext(closeThrows: bool, closing: seq<Action>, joining: seq<seq<Action>>) returns (ghost rounds: nat)
      requires Valid() && control.Loop? && control.rest != []
      modifies this, owned
      ensures Valid() && Extended()
      ensures Does(Thread(MyCall), old(View()), [Step(TeardownNext(0))]
        + CloseProgram(old(control).rest[0], closeThrows, closing, joining, rounds) + [Step(Erase(0))], View())
      ensures control == Loop(old(control).rest[1..]) && activeReceivers == old(activeReceivers)
      ensures old(control).rest[0] < |receivers| && var x := Table()[old(control).rest[0]];
        !x.active && (if closeThrows then !x.joined else x.joined && x.worker == Ended)
    {
      ghost var s0 := View();
      NextCalled(s0);
      DoesAct(MyCall, s0, TeardownNext(0));
      var r, rest := control.rest[0], control.rest[1..];
      var ret;
      ret, rounds := ReceiveStop(r, Teardown(rest), closeThrows, closing, joining, TeardownNext(0));
      ghost var s1 := View();
      EndRound();
      DoesBoth(Thread(MyCall), s0,
               [Step(TeardownNext(0))] + CloseProgram(r, closeThrows, closing, joining, rounds),
               s1, [Step(Erase(0))], View());
    }

    /** receiveStop has returned to the loop of the destructor. */
    method EndRound()
      requires Valid() && control.Stopping? && control.at.After? && control.why.Teardown? && control.r < |receivers|
      modifies this`control
      ensures Valid() && Does(Thread(MyCall), old(View()), [Step(Erase(0))], View())
      ensures control == Loop(old(control).why.rest)
    {
      GoTo(Loop(control.why.rest), Erase(0));
    }

    /** activeReceivers.clear(), and the end of the destructor. */
    method ClearAll(order: seq<nat>, joining: seq<seq<Action>>) returns (ghost clears: seq<nat>)
      requires Valid() && control == Loop([]) && Lists(activeReceivers, order)
      modifies this, owned
      ensures Valid() && Extended() && |clears| == |order|
      ensures Does(Thread(MyCall), old(View()),
                   [Step(ClearBegin(0, order))] + ClearProgram(order, joining, clears) + [Step(ClearNext(0))], View())
      ensures control == Destroyed && activeReceivers == map[]
    {
      ghost var s0 := View();
      BeginClear(order);
      ghost var s1 := View();
      clears := ClearLoop(joining);
      DoesBoth(Thread(MyCall), s0, [Step(ClearBegin(0, order))], s1, ClearProgram(order, joining, clears), View());
      ghost var s2 := View();
      GoTo(Destroyed, ClearNext(0));
      DoesBoth(Thread(MyCall), s0, [Step(ClearBegin(0, order))] + ClearProgram(order, joining, clears),
               s2, [Step(ClearNext(0))], View());
    }

    method BeginClear(order: seq<nat>)
      requires Valid() && control == Loop([]) && Lists(activeReceivers, order)
      modifies this`activeReceivers, this`control
      ensures Valid() && Does(Thread(MyCall), old(View()), [Step(ClearBegin(0, order))], View())
      ensures control == Clearing(order) && activeReceivers == map[]
    {
      ghost var s := View();
      DoesAct(MyCall, s, ClearBegin(0, order));
      activeReceivers := map[];
      control := Clearing(order);
      assert View().instances == Apply(s, ClearBegin(0, order)).instances;
    }

    /** The receivers are destroyed one after the other. */
    method ClearLoop(joining: seq<seq<Action>>) returns (ghost clears: seq<nat>)
      requires Valid() && control.Clearing? && activeReceivers == map[]
      modifies this, owned
      ensures Valid() && Extended() && |clears| == |old(control).rest|
      ensures Does(Thread(MyCall), old(View()), ClearProgram(old(control).rest, joining, clears), View())
      ensures control == Clearing([]) && activeReceivers == map[]
    {
      ghost var s0 := View();
      ghost var order := control.rest;
      clears := [];
      DoesNothing(Thread(MyCall), s0);
      while control.Clearing? && control.rest != []
        invariant Valid() && Extended() && activeReceivers == map[]
        invariant control.Clearing? && |clears| <= |order| && control.rest == order[|clears|..]
        invariant Does(Thread(MyCall), s0, ClearProgram(order[..|clears|], joining, clears), View())
        decreases |control.rest|
      {
        ghost var s, rounds := View(), 0;
        rounds := ClearOne(joining);
        clears := DoesClear(order, joining, clears, rounds, s0, s, View());
      }
      assert order[..|clears|] == order;
    }

    /** ~QPIDReceiver of the next receiver. */
    method ClearOne(joining: seq<seq<Action>>) returns (ghost rounds: nat)
      requires Valid() && control.Clearing? && control.rest != []
      modifies this, owned
      ensures Valid() && Extended()
      ensures Does(Thread(MyCall), old(View()),
                   AwaitProgram(old(control).rest[0], joining, rounds) + [Step(ClearNext(0))], View())
      ensures control == Clearing(old(control).rest[1..]) && activeReceivers == old(activeReceivers)
      ensures old(control).rest[0] < |receivers| && var x := Table()[old(control).rest[0]];
        x.worker == Ended && x.joined
    {
      ghost var s0 := View();
      NextToClear(s0, 0);
      var r := control.rest[0];
      rounds := AwaitWorker(r, joining);
      ghost var s1 := View();
      DestroyReceiver();
      DoesBoth(Thread(MyCall), s0, AwaitProgram(r, joining, rounds), s1, [Step(ClearNext(0))], View());
    }

    method DestroyReceiver()
      requires Valid() && control.Clearing? && control.rest != []
      requires control.rest[0] < |receivers| && Table()[control.rest[0]].worker == Ended
      modifies this`control, receivers[control.rest[0]]
      ensures Valid() && Does(Thread(MyCall), old(View()), [Step(ClearNext(0))], View())
      ensures control == Clearing(old(control).rest[1..])
      ensures var r := old(control).rest[0];
        Table() == old(Table())[r := old(Table())[r].(active := false, joined := true)]
    {
      Cleared(View());
      DoesAct(MyCall, View(), ClearNext(0));
      MarkAndGo(control.rest[0], false, true, Clearing(control.rest[1..]));
    }
  }
}
