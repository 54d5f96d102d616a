/** The receivers of a process and the QPIDMessaging instances that start and stop them, as one state machine.

    Every receiver has a worker thread in waitForMessages; every instance is used by one thread, whose calls proceed
    step by step while all the workers run. One process-wide lock protects the callbacks. */
module ReceiverMachine {
  import opened Sums

  type Message = nat

  datatype Status = QPID_SUCCESS | QPID_ERROR | QPID_ALREADY | QPID_INVALID_PARAM

  // ----- one receiver and its worker -----

  datatype Stage =
    | AtLoop                  // about to read mReceivingActive
    | Fetching
    | WantLock(m: Message)    // has fetched m
    | InCallback(m: Message)  // holds the lock
    | Acknowledging           // has released the lock
    | Handling                // in the exception handler
    | Ended

  /** active is mReceivingActive; joined says that the thread object is no longer joinable. fetched, delivered and
      acknowledged are the messages so far; a message is delivered when its callback returns. */
  datatype Receiver = Receiver(
    owner: nat,
    exchange: string,
    active: bool,
    joined: bool,
    worker: Stage,
    fetched: seq<Message>,
    delivered: seq<Message>,
    acknowledged: seq<Message>)

  datatype WorkerMove =
    | Check
    | FetchReturns(m: Message)
    | FetchThrows
    | TakeLock
    | CallbackReturns
    | AcknowledgeReturns
    | AcknowledgeThrows
    | HandlerReturns

  predicate WorkerEnabled(r: Receiver, move: WorkerMove)
  {
    match move
    case Check => r.worker == AtLoop
    case FetchReturns(_) => r.worker == Fetching
    case FetchThrows => r.worker == Fetching
    case TakeLock => r.worker.WantLock?
    case CallbackReturns => r.worker.InCallback?
    case AcknowledgeReturns => r.worker == Acknowledging
    case AcknowledgeThrows => r.worker == Acknowledging
    case HandlerReturns => r.worker == Handling
  }

  /** A session acknowledges everything it has fetched. */
  function WorkerApply(r: Receiver, move: WorkerMove): Receiver
    requires WorkerEnabled(r, move)
  {
    match move
    case Check => r.(worker := if r.active then Fetching else Ended)
    case FetchReturns(m) => r.(worker := WantLock(m), fetched := r.fetched + [m])
    case FetchThrows => r.(worker := Handling)
    case TakeLock => r.(worker := InCallback(r.worker.m))
    case CallbackReturns => r.(worker := Acknowledging, delivered := r.delivered + [r.worker.m])
    case AcknowledgeReturns => r.(worker := AtLoop, acknowledged := r.fetched)
    case AcknowledgeThrows => r.(worker := Handling)
    case HandlerReturns => r.(worker := Ended)
  }

  /** Which messages are where, in every stage of the worker. */
  predicate MessagesInv(r: Receiver)
  {
    match r.worker
    case WantLock(m) => r.fetched == r.delivered + [m] && r.acknowledged == r.delivered
    case InCallback(m) => r.fetched == r.delivered + [m] && r.acknowledged == r.delivered
    case AtLoop => r.fetched == r.delivered == r.acknowledged
    case Fetching => r.fetched == r.delivered == r.acknowledged
    case _ => r.fetched == r.delivered && r.acknowledged <= r.delivered && |r.delivered| <= |r.acknowledged| + 1
  }

  // ----- the instances -----

  /** The rest of a receiveStop: close the connection, join, and what follows. */
  datatype StopStep =
    | Close
    | Join
    | After(ret: Status)  // receiveStop has returned ret
    | Drop(ret: Status)   // the entry is erased and the receiver is being destroyed

  /** On whose behalf a receiver is stopped: a call of qpidReceiveStop, or the loop of the destructor. */
  datatype Why = Call(exchange: string) | Teardown(rest: seq<nat>)

  datatype Control =
    | Idle
    | Registering(r: nat)            // its thread has been started, emplace is next
    | Stopping(r: nat, at: StopStep, why: Why)
    | Loop(rest: seq<nat>)           // in the loop of the destructor, with the receivers still to be stopped
    | Clearing(rest: seq<nat>)       // activeReceivers.clear(), with the receivers still to be destroyed
    | Destroyed

  /** What a public call answered. */
  datatype Answer = Started(exchange: string, callback: bool, ret: Status) | Stopped(exchange: string, ret: Status)

  datatype Instance = Instance(registry: map<string, nat>, control: Control, answers: seq<Answer>)

  datatype Mutex = Free | HeldBy(r: nat)

  datatype Process = Process(receivers: seq<Receiver>, instances: seq<Instance>, mutex: Mutex)

  function Init(instances: nat): Process
  {
    Process([], seq(instances, _ => Instance(map[], Idle, [])), Free)
  }

  datatype Action =
    | Worker(r: nat, move: WorkerMove)
    // qpidReceiveMessages
    | StartNull(i: nat, exchange: string)      // no callback
    | StartAlready(i: nat, exchange: string)
    | StartFails(i: nat, exchange: string)     // opening throws; the new receiver is destroyed again
    | StartThrows(i: nat, exchange: string)    // the constructor of the receiver throws, out of the call
    | StartThread(i: nat, exchange: string)
    | Register(i: nat)
    // qpidReceiveStop
    | StopUnknown(i: nat, exchange: string)
    | StopBegin(i: nat, exchange: string)
    | CloseReturns(i: nat)
    | CloseThrows(i: nat)
    | JoinReturns(i: nat)
    | Erase(i: nat)
    | DropReturns(i: nat)
    // the destructor
    | TeardownBegin(i: nat, order: seq<nat>)
    | TeardownNext(i: nat)
    | ClearBegin(i: nat, order: seq<nat>)
    | ClearNext(i: nat)

  predicate IdleAt(s: Process, i: nat)
  {
    i < |s.instances| && s.instances[i].control == Idle
  }

  predicate StoppingAt(s: Process, i: nat)
  {
    i < |s.instances| && s.instances[i].control.Stopping? && s.instances[i].control.r < |s.receivers|
  }

  /** The thread object of receiver r can be joined without waiting, or has been joined. */
  predicate Joinable(s: Process, r: nat)
  {
    r < |s.receivers| && (s.receivers[r].joined || s.receivers[r].worker == Ended)
  }

  /** order lists the registered receivers, each once, in the order in which the map is traversed. */
  predicate Lists(registry: map<string, nat>, order: seq<nat>)
  {
    && (forall k, m :: 0 <= k < m < |order| ==> order[k] != order[m])
    && (forall k :: 0 <= k < |order| ==> order[k] in registry.Values)
    && (forall r :: r in registry.Values ==> r in order)
  }

  predicate Enabled(s: Process, a: Action)
  {
    match a
    case Worker(r, move) =>
      && r < |s.receivers| && WorkerEnabled(s.receivers[r], move)
      && (move == TakeLock ==> s.mutex == Free)
    case StartNull(i, _) => IdleAt(s, i)
    case StartAlready(i, exchange) => IdleAt(s, i) && exchange in s.instances[i].registry
    case StartFails(i, exchange) => IdleAt(s, i) && exchange !in s.instances[i].registry
    case StartThrows(i, exchange) => IdleAt(s, i) && exchange !in s.instances[i].registry
    case StartThread(i, exchange) => IdleAt(s, i) && exchange !in s.instances[i].registry
    case Register(i) =>
      i < |s.instances| && s.instances[i].control.Registering? && s.instances[i].control.r < |s.receivers|
    case StopUnknown(i, exchange) => IdleAt(s, i) && exchange !in s.instances[i].registry
    case StopBegin(i, exchange) =>
      IdleAt(s, i) && exchange in s.instances[i].registry && s.instances[i].registry[exchange] < |s.receivers|
    case CloseReturns(i) => StoppingAt(s, i) && s.instances[i].control.at == Close
    case CloseThrows(i) => StoppingAt(s, i) && s.instances[i].control.at == Close
    case JoinReturns(i) =>
      StoppingAt(s, i) && s.instances[i].control.at == Join && Joinable(s, s.instances[i].control.r)
    case Erase(i) => StoppingAt(s, i) && s.instances[i].control.at.After?
    case DropReturns(i) =>
      && StoppingAt(s, i) && s.instances[i].control.at.Drop? && s.instances[i].control.why.Call?
      && Joinable(s, s.instances[i].control.r)
    case TeardownBegin(i, order) => IdleAt(s, i) && Lists(s.instances[i].registry, order)
    case TeardownNext(i) =>
      && i < |s.instances| && s.instances[i].control.Loop? && s.instances[i].control.rest != []
      && s.instances[i].control.rest[0] < |s.receivers|
    case ClearBegin(i, order) =>
      && i < |s.instances| && s.instances[i].control.Loop? && s.instances[i].control.rest == []
      && Lists(s.instances[i].registry, order)
    case ClearNext(i) =>
      && i < |s.instances| && s.instances[i].control.Clearing?
      && (s.instances[i].control.rest != [] ==> Joinable(s, s.instances[i].control.rest[0]))
  }

  function SetControl(s: Process, i: nat, control: Control): Process
    requires i < |s.instances|
  {
    s.(instances := s.instances[i := s.instances[i].(control := control)])
  }

  function SetReceiver(s: Process, r: nat, x: Receiver): Process
    requires r < |s.receivers|
  {
    s.(receivers := s.receivers[r := x])
  }

  function Answered(s: Process, i: nat, answer: Answer): Process
    requires i < |s.instances|
  {
    s.(instances := s.instances[i := s.instances[i].(control := Idle, answers := s.instances[i].answers + [answer])])
  }

  /** The first lines of receiveStop: an active receiver is told to stop. */
  function BeginStop(s: Process, i: nat, r: nat, why: Why): Process
    requires i < |s.instances| && r < |s.receivers|
  {
    if s.receivers[r].active then
      SetControl(SetReceiver(s, r, s.receivers[r].(active := false)), i, Stopping(r, Close, why))
    else SetControl(s, i, Stopping(r, After(QPID_INVALID_PARAM), why))
  }

  function ApplyWorker(s: Process, r: nat, move: WorkerMove): Process
    requires Enabled(s, Worker(r, move))
  {
    SetReceiver(s, r, WorkerApply(s.receivers[r], move))
      .(mutex := if move == TakeLock then HeldBy(r) else if move == CallbackReturns then Free else s.mutex)
  }

  function ApplyErase(s: Process, i: nat): Process
    requires Enabled(s, Erase(i))
  {
    var x := s.instances[i];
    if x.control.why.Teardown? then SetControl(s, i, Loop(x.control.why.rest))
    else
      var erased :=
        x.(registry := x.registry - {x.control.why.exchange}, control := x.control.(at := Drop(x.control.at.ret)));
      s.(instances := s.instances[i := erased])
  }

  /** The destructor of a receiver whose worker has ended. */
  function Destruct(s: Process, r: nat): Process
    requires r < |s.receivers|
  {
    SetReceiver(s, r, s.receivers[r].(active := false, joined := true))
  }

  function ApplyRegister(s: Process, i: nat): Process
    requires Enabled(s, Register(i))
  {
    var x := s.instances[i];
    var exchange := s.receivers[x.control.r].exchange;
    s.(instances := s.instances[i :=
      Instance(x.registry[exchange := x.control.r], Idle, x.answers + [Started(exchange, true, QPID_SUCCESS)])])
  }

  function Apply(s: Process, a: Action): Process
    requires Enabled(s, a)
  {
    match a
    case Worker(r, move) => ApplyWorker(s, r, move)
    case StartNull(i, exchange) => Answered(s, i, Started(exchange, false, QPID_ERROR))
    case StartAlready(i, exchange) => Answered(s, i, Started(exchange, true, QPID_ALREADY))
    case StartFails(i, exchange) => Answered(s, i, Started(exchange, true, QPID_ERROR))
    case StartThrows(_, _) => s
    case StartThread(i, exchange) =>
      SetControl(s.(receivers := s.receivers + [Receiver(i, exchange, true, false, AtLoop, [], [], [])]),
                 i, Registering(|s.receivers|))
    case Register(i) => ApplyRegister(s, i)
    case StopUnknown(i, exchange) => Answered(s, i, Stopped(exchange, QPID_INVALID_PARAM))
    case StopBegin(i, exchange) => BeginStop(s, i, s.instances[i].registry[exchange], Call(exchange))
    case CloseReturns(i) => SetControl(s, i, s.instances[i].control.(at := Join))
    case CloseThrows(i) => SetControl(s, i, s.instances[i].control.(at := After(QPID_ERROR)))
    case JoinReturns(i) =>
      var r := s.instances[i].control.r;
      SetControl(SetReceiver(s, r, s.receivers[r].(joined := true)), i,
        s.instances[i].control.(at := After(QPID_SUCCESS)))
    case Erase(i) => ApplyErase(s, i)
    case DropReturns(i) =>
      var x := s.instances[i].control;
      Answered(Destruct(s, x.r), i, Stopped(x.why.exchange, x.at.ret))
    case TeardownBegin(i, order) => SetControl(s, i, Loop(order))
    case TeardownNext(i) =>
      var rest := s.instances[i].control.rest;
      BeginStop(s, i, rest[0], Teardown(rest[1..]))
    case ClearBegin(i, order) =>
      s.(instances := s.instances[i := s.instances[i].(registry := map[], control := Clearing(order))])
    case ClearNext(i) =>
      var rest := s.instances[i].control.rest;
      if rest == [] then SetControl(s, i, Destroyed) else SetControl(Destruct(s, rest[0]), i, Clearing(rest[1..]))
  }

  predicate Path(s: Process, acts: seq<Action>, t: Process)
    decreases |acts|
  {
    if acts == [] then s == t else Enabled(s, acts[0]) && Path(Apply(s, acts[0]), acts[1..], t)
  }

  // ----- the invariant -----

  /** Instance x still has something to do with receiver r. */
  predicate InHand(x: Instance, r: nat)
  {
    || r in x.registry.Values
    || (x.control.Registering? && x.control.r == r)
    || (x.control.Stopping? && x.control.r == r)
    || (x.control.Clearing? && r in x.control.rest)
  }

  /** A receiver that its instance has let go has been joined. */
  predicate ReceiverInv(s: Process, r: nat)
    requires r < |s.receivers|
  {
    var x := s.receivers[r];
    && MessagesInv(x)
    && x.owner < |s.instances|
    && (x.joined ==> x.worker == Ended)
    && (!InHand(s.instances[x.owner], r) ==> x.joined && !x.active)
  }

  /** Receiver r of instance i, on the given exchange, is receiving: not told to stop, its thread not joined. */
  predicate Receiving(s: Process, i: nat, r: nat, exchange: string)
  {
    && r < |s.receivers| && s.receivers[r].owner == i && s.receivers[r].exchange == exchange
    && s.receivers[r].active && !s.receivers[r].joined
  }

  /** Receiver r of instance i has been told to stop. */
  predicate ToldToStop(s: Process, i: nat, r: nat)
  {
    r < |s.receivers| && s.receivers[r].owner == i && !s.receivers[r].active
  }

  predicate RegistryInv(s: Process, i: nat)
    requires i < |s.instances|
  {
    var x := s.instances[i];
    forall exchange :: exchange in x.registry ==>
      var r := x.registry[exchange];
      && r < |s.receivers| && s.receivers[r].owner == i && s.receivers[r].exchange == exchange
      && (Waiting(x.control, r) ==> Receiving(s, i, r, exchange))
      && (!Waiting(x.control, r) ==> ToldToStop(s, i, r))
  }

  /** Receiver r has not yet been reached by the stopping or the destruction under way. */
  predicate Waiting(control: Control, r: nat)
  {
    match control
    case Stopping(q, _, why) => q != r && (why.Teardown? ==> r in why.rest)
    case Loop(rest) => r in rest
    case Clearing(_) => false
    case _ => true
  }

  predicate Distinct(rest: seq<nat>)
  {
    forall k, m :: 0 <= k < m < |rest| ==> rest[k] != rest[m]
  }

  predicate StopInv(s: Process, i: nat)
    requires i < |s.instances| && s.instances[i].control.Stopping?
  {
    var x := s.instances[i];
    var r := x.control.r;
    && ToldToStop(s, i, r)
    && (x.control.at.Close? || x.control.at.Join? ==> !s.receivers[r].joined)
    && (x.control.at.After? || x.control.at.Drop? ==>
         (x.control.at.ret == QPID_SUCCESS && s.receivers[r].joined)
           || (x.control.at.ret == QPID_ERROR && !s.receivers[r].joined))
    && match x.control.why
       case Call(exchange) =>
         && s.receivers[r].exchange == exchange
         && (if x.control.at.Drop? then exchange !in x.registry
             else exchange in x.registry && x.registry[exchange] == r)
       case Teardown(rest) =>
         && !x.control.at.Drop? && r in x.registry.Values
         && Distinct(rest) && r !in rest && forall q :: q in rest ==> q in x.registry.Values
  }

  predicate ControlInv(s: Process, i: nat)
    requires i < |s.instances|
  {
    var x := s.instances[i];
    match x.control
    case Idle => true
    case Registering(r) =>
      r < |s.receivers| && Receiving(s, i, r, s.receivers[r].exchange) && s.receivers[r].exchange !in x.registry
    case Stopping(_, _, _) => StopInv(s, i)
    case Loop(rest) => Distinct(rest) && forall q :: q in rest ==> q in x.registry.Values
    case Clearing(rest) =>
      && x.registry == map[] && Distinct(rest)
      && (forall q :: q in rest ==> ToldToStop(s, i, q))
      && forall k, m :: 0 <= k < m < |rest| && rest[k] < |s.receivers| && rest[m] < |s.receivers| ==>
           s.receivers[rest[k]].exchange != s.receivers[rest[m]].exchange
    case Destroyed => x.registry == map[]
  }

  /** The mutex is held by a worker exactly while it is in its callback. */
  predicate MutexInv(s: Process)
  {
    && (s.mutex.HeldBy? ==> s.mutex.r < |s.receivers|)
    && forall r :: 0 <= r < |s.receivers| ==> (s.mutex == HeldBy(r) <==> s.receivers[r].worker.InCallback?)
  }

  predicate Inv(s: Process)
  {
    && MutexInv(s)
    && (forall r :: 0 <= r < |s.receivers| ==> ReceiverInv(s, r))
    && (forall i :: 0 <= i < |s.instances| ==> RegistryInv(s, i) && ControlInv(s, i))
  }

  lemma InitInv(instances: nat)
    ensures Inv(Init(instances))
  {
  }

  /** What a step leaves of the receivers. */
  predicate Evolves(s: Process, t: Process)
  {
    && |s.receivers| <= |t.receivers| && |s.instances| == |t.instances|
    && forall r :: 0 <= r < |s.receivers| ==>
         && t.receivers[r].owner == s.receivers[r].owner && t.receivers[r].exchange == s.receivers[r].exchange
         && (s.receivers[r].joined ==> t.receivers[r].joined) && (t.receivers[r].active ==> s.receivers[r].active)
         && (s.receivers[r].worker == Ended ==> t.receivers[r].worker == Ended)
         && s.receivers[r].delivered <= t.receivers[r].delivered
  }

  /** What a step of an instance leaves of the receivers: the workers and their messages; a receiver may be told to
      stop, and it may be joined once its worker has ended. */
  predicate LeavesWorkers(s: Process, t: Process)
  {
    && |s.receivers| <= |t.receivers|
    && forall r :: 0 <= r < |s.receivers| ==>
         && t.receivers[r] == s.receivers[r].(active := t.receivers[r].active, joined := t.receivers[r].joined)
         && (t.receivers[r].active ==> s.receivers[r].active) && (s.receivers[r].joined ==> t.receivers[r].joined)
         && (t.receivers[r].joined ==> s.receivers[r].joined || s.receivers[r].worker == Ended)
  }

  lemma InstanceStep(s: Process, a: Action)
    requires Enabled(s, a) && !a.Worker?
    ensures LeavesWorkers(s, Apply(s, a)) && |Apply(s, a).instances| == |s.instances|
  {
  }

  lemma WorkerStep(s: Process, r: nat, move: WorkerMove)
    requires Enabled(s, Worker(r, move))
    ensures Apply(s, Worker(r, move)).instances == s.instances
    ensures Apply(s, Worker(r, move)).receivers == s.receivers[r := WorkerApply(s.receivers[r], move)]
    ensures Evolves(s, Apply(s, Worker(r, move)))
  {
  }

  lemma InstanceMutex(s: Process, a: Action)
    requires Enabled(s, a) && !a.Worker?
    ensures Apply(s, a).mutex == s.mutex
    ensures forall r :: |s.receivers| <= r < |Apply(s, a).receivers| ==> Apply(s, a).receivers[r].worker == AtLoop
  {
  }

  lemma StepMutex(s: Process, a: Action)
    requires MutexInv(s) && Enabled(s, a)
    ensures MutexInv(Apply(s, a))
  {
    if a.Worker? {
      WorkerMutex(s, a.r, a.move);
    } else {
      InstanceStep(s, a);
      InstanceMutex(s, a);
    }
  }

  lemma WorkerMutex(s: Process, r: nat, move: WorkerMove)
    requires MutexInv(s) && Enabled(s, Worker(r, move))
    ensures MutexInv(Apply(s, Worker(r, move)))
  {
    assert s.mutex == HeldBy(r) <==> s.receivers[r].worker.InCallback?;
  }

  lemma StepEvolves(s: Process, a: Action)
    requires Enabled(s, a)
    ensures Evolves(s, Apply(s, a))
  {
    if a.Worker? {
      WorkerStep(s, a.r, a.move);
    } else {
      InstanceStep(s, a);
    }
  }

  /** The instance whose thread takes the step; a worker's step belongs to none. */
  predicate Acts(a: Action, i: nat)
  {
    !a.Worker? && a.i == i
  }

  /** Nothing that instance i relies on has changed. */
  predicate SameFor(s: Process, t: Process, i: nat)
  {
    && i < |s.instances| && i < |t.instances| && t.instances[i] == s.instances[i]
    && |s.receivers| <= |t.receivers|
    && forall r :: 0 <= r < |s.receivers| && s.receivers[r].owner == i ==>
         && t.receivers[r].owner == i && t.receivers[r].exchange == s.receivers[r].exchange
         && t.receivers[r].active == s.receivers[r].active && t.receivers[r].joined == s.receivers[r].joined
  }

  lemma SameRegistry(s: Process, t: Process, i: nat)
    requires SameFor(s, t, i) && RegistryInv(s, i)
    ensures RegistryInv(t, i)
  {
  }

  lemma SameControl(s: Process, t: Process, i: nat)
    requires SameFor(s, t, i) && ControlInv(s, i)
    ensures ControlInv(t, i)
  {
    var x := s.instances[i].control;
    if x.Clearing? {
      forall q | q in x.rest ensures ToldToStop(t, i, q) && t.receivers[q].exchange == s.receivers[q].exchange {
        assert ToldToStop(s, i, q);
      }
    }
  }

  lemma Registered(s: Process, i: nat, r: nat) returns (exchange: string)
    requires i < |s.instances| && RegistryInv(s, i) && r in s.instances[i].registry.Values
    ensures exchange in s.instances[i].registry && s.instances[i].registry[exchange] == r
    ensures r < |s.receivers| && s.receivers[r].owner == i && s.receivers[r].exchange == exchange
  {
    exchange :| exchange in s.instances[i].registry && s.instances[i].registry[exchange] == r;
  }

  /** The receiver that a step of an instance tells to stop or destroys, if any, is its own. */
  lemma StepSpares(s: Process, a: Action, r: nat)
    requires Inv(s) && Enabled(s, a) && !a.Worker? && r < |s.receivers| && s.receivers[r].owner != a.i
    ensures r < |Apply(s, a).receivers| && Apply(s, a).receivers[r] == s.receivers[r]
  {
    assert RegistryInv(s, a.i) && ControlInv(s, a.i);
    var x := s.instances[a.i].control;
    if a.TeardownNext? {
      assert x.rest[0] in x.rest;
      var exchange := Registered(s, a.i, x.rest[0]);
    } else if a.ClearNext? && x.rest != [] {
      assert x.rest[0] in x.rest;
      assert ToldToStop(s, a.i, x.rest[0]);
    }
  }

  /** A step of one instance does not touch the receivers of another. */
  lemma OtherInstance(s: Process, a: Action, i: nat)
    requires Inv(s) && Enabled(s, a) && i < |s.instances| && !Acts(a, i)
    ensures SameFor(s, Apply(s, a), i)
  {
    if a.Worker? {
      WorkerStep(s, a.r, a.move);
    } else {
      InstanceStep(s, a);
      forall r | 0 <= r < |s.receivers| && s.receivers[r].owner == i
        ensures Apply(s, a).receivers[r] == s.receivers[r]
      {
        StepSpares(s, a, r);
      }
    }
  }

  /** Entering a receiver into the registry keeps it in hand, and all the others. */
  lemma RegisterHandsOver(s: Process, i: nat, r: nat)
    requires Inv(s) && Enabled(s, Register(i)) && r < |s.receivers| && InHand(s.instances[i], r)
    ensures InHand(Apply(s, Register(i)).instances[i], r)
  {
    var x, y := s.instances[i], Apply(s, Register(i)).instances[i];
    assert RegistryInv(s, i) && ControlInv(s, i);
    assert y.registry[s.receivers[x.control.r].exchange] == x.control.r;
    if r in x.registry.Values {
      var exchange := Registered(s, i, r);
      assert y.registry[exchange] == r;
    }
  }

  /** The steps that let a receiver go, or take it in hand in a new way. */
  lemma HandedOver(s: Process, a: Action, r: nat)
    requires Inv(s) && Enabled(s, a) && r < |s.receivers| && !a.Worker? && !a.Register?
    requires s.receivers[r].owner == a.i && InHand(s.instances[a.i], r)
    ensures InHand(Apply(s, a).instances[a.i], r)
      || (Apply(s, a).receivers[r].joined && !Apply(s, a).receivers[r].active)
  {
    assert RegistryInv(s, a.i) && ControlInv(s, a.i);
    if r in s.instances[a.i].registry.Values {
      var exchange := Registered(s, a.i, r);
      assert exchange in Apply(s, a).instances[a.i].registry ==> Apply(s, a).instances[a.i].registry[exchange] == r;
    }
  }

  lemma WorkerKeepsReceiver(s: Process, q: nat, move: WorkerMove, r: nat)
    requires Inv(s) && Enabled(s, Worker(q, move)) && r < |s.receivers|
    ensures ReceiverInv(Apply(s, Worker(q, move)), r)
  {
    assert ReceiverInv(s, r);
    WorkerStep(s, q, move);
  }

  lemma OwnerKeepsReceiver(s: Process, a: Action, r: nat)
    requires Inv(s) && Enabled(s, a) && r < |s.receivers| && Acts(a, s.receivers[r].owner)
    ensures ReceiverInv(Apply(s, a), r)
  {
    assert ReceiverInv(s, r);
    InstanceStep(s, a);
    if InHand(s.instances[a.i], r) {
      if a.Register? {
        RegisterHandsOver(s, a.i, r);
      } else {
        HandedOver(s, a, r);
      }
    }
  }

  lemma OtherKeepsReceiver(s: Process, a: Action, r: nat)
    requires Inv(s) && Enabled(s, a) && r < |s.receivers| && !a.Worker? && a.i != s.receivers[r].owner
    ensures ReceiverInv(Apply(s, a), r)
  {
    assert ReceiverInv(s, r);
    InstanceStep(s, a);
    OtherInstance(s, a, s.receivers[r].owner);
  }

  /** The receivers that no instance has in hand are finished. */
  lemma StepReceiver(s: Process, a: Action, r: nat)
    requires Inv(s) && Enabled(s, a) && r < |s.receivers|
    ensures ReceiverInv(Apply(s, a), r)
  {
    if a.Worker? {
      WorkerKeepsReceiver(s, a.r, a.move, r);
    } else if a.i == s.receivers[r].owner {
      OwnerKeepsReceiver(s, a, r);
    } else {
      OtherKeepsReceiver(s, a, r);
    }
  }

  /** Starting a receiver, and the calls that change nothing. */
  lemma StartKeeps(s: Process, a: Action)
    requires Inv(s) && Enabled(s, a) && !a.Worker?
    requires a.StartNull? || a.StartAlready? || a.StartFails? || a.StartThrows? || a.StartThread? || a.StopUnknown?
    ensures RegistryInv(Apply(s, a), a.i) && ControlInv(Apply(s, a), a.i)
  {
    assert RegistryInv(s, a.i) && ControlInv(s, a.i);
  }

  lemma RegisterKeeps(s: Process, i: nat)
    requires Inv(s) && Enabled(s, Register(i))
    ensures RegistryInv(Apply(s, Register(i)), i) && ControlInv(Apply(s, Register(i)), i)
  {
    assert RegistryInv(s, i) && ControlInv(s, i);
  }

  lemma StopBeginKeeps(s: Process, i: nat, exchange: string)
    requires Inv(s) && Enabled(s, StopBegin(i, exchange))
    ensures RegistryInv(Apply(s, StopBegin(i, exchange)), i) && ControlInv(Apply(s, StopBegin(i, exchange)), i)
  {
    assert RegistryInv(s, i) && ControlInv(s, i);
    assert ReceiverInv(s, s.instances[i].registry[exchange]);
  }

  /** closeConnection and join, for a call and for the destructor alike. */
  lemma StoppingKeeps(s: Process, a: Action)
    requires Inv(s) && Enabled(s, a) && (a.CloseReturns? || a.CloseThrows? || a.JoinReturns?)
    ensures RegistryInv(Apply(s, a), a.i) && ControlInv(Apply(s, a), a.i)
  {
    assert RegistryInv(s, a.i) && ControlInv(s, a.i);
  }

  lemma EraseKeeps(s: Process, i: nat)
    requires Inv(s) && Enabled(s, Erase(i))
    ensures RegistryInv(Apply(s, Erase(i)), i) && ControlInv(Apply(s, Erase(i)), i)
  {
    assert RegistryInv(s, i) && ControlInv(s, i);
  }

  lemma DropKeeps(s: Process, i: nat)
    requires Inv(s) && Enabled(s, DropReturns(i))
    ensures RegistryInv(Apply(s, DropReturns(i)), i) && ControlInv(Apply(s, DropReturns(i)), i)
  {
    assert RegistryInv(s, i) && ControlInv(s, i);
  }

  lemma TeardownBeginKeeps(s: Process, i: nat, order: seq<nat>)
    requires Inv(s) && Enabled(s, TeardownBegin(i, order))
    ensures RegistryInv(Apply(s, TeardownBegin(i, order)), i) && ControlInv(Apply(s, TeardownBegin(i, order)), i)
  {
    assert RegistryInv(s, i) && ControlInv(s, i);
  }

  /** The receiver whose turn it is in the destructor, and the rest. */
  lemma NextInLoop(s: Process, i: nat) returns (exchange: string)
    requires Inv(s) && Enabled(s, TeardownNext(i))
    ensures var rest := s.instances[i].control.rest;
      && Receiving(s, i, rest[0], exchange) && rest[0] in s.instances[i].registry.Values
      && Distinct(rest[1..]) && rest[0] !in rest[1..] && forall q :: q in rest[1..] ==> q in rest
  {
    assert RegistryInv(s, i) && ControlInv(s, i);
    var rest := s.instances[i].control.rest;
    assert rest[0] in rest;
    exchange := Registered(s, i, rest[0]);
  }

  lemma TeardownNextControl(s: Process, i: nat)
    requires Inv(s) && Enabled(s, TeardownNext(i))
    ensures ControlInv(Apply(s, TeardownNext(i)), i)
  {
    assert ControlInv(s, i);
    var exchange := NextInLoop(s, i);
  }

  lemma TeardownNextKeeps(s: Process, i: nat)
    requires Inv(s) && Enabled(s, TeardownNext(i))
    ensures RegistryInv(Apply(s, TeardownNext(i)), i) && ControlInv(Apply(s, TeardownNext(i)), i)
  {
    assert RegistryInv(s, i);
    var exchange := NextInLoop(s, i);
    TeardownNextControl(s, i);
  }

  lemma ClearBeginKeeps(s: Process, i: nat, order: seq<nat>)
    requires Inv(s) && Enabled(s, ClearBegin(i, order))
    ensures RegistryInv(Apply(s, ClearBegin(i, order)), i) && ControlInv(Apply(s, ClearBegin(i, order)), i)
  {
    assert RegistryInv(s, i) && ControlInv(s, i);
    forall q | q in order ensures ToldToStop(s, i, q) {
      var exchange := Registered(s, i, q);
    }
    forall k, m | 0 <= k < m < |order| && order[k] < |s.receivers| && order[m] < |s.receivers|
      ensures s.receivers[order[k]].exchange != s.receivers[order[m]].exchange
    {
      var e := Registered(s, i, order[k]);
      var f := Registered(s, i, order[m]);
    }
  }

  lemma ClearNextKeeps(s: Process, i: nat)
    requires Inv(s) && Enabled(s, ClearNext(i))
    ensures RegistryInv(Apply(s, ClearNext(i)), i) && ControlInv(Apply(s, ClearNext(i)), i)
  {
    assert RegistryInv(s, i) && ControlInv(s, i);
    var rest := s.instances[i].control.rest;
    if rest != [] {
      forall q | q in rest[1..] ensures ToldToStop(Apply(s, ClearNext(i)), i, q) {
        assert ToldToStop(s, i, q);
      }
    }
  }

  lemma OwnInstance(s: Process, a: Action)
    requires Inv(s) && Enabled(s, a) && !a.Worker?
    ensures a.i < |Apply(s, a).instances| && RegistryInv(Apply(s, a), a.i) && ControlInv(Apply(s, a), a.i)
  {
    match a
    case Register(i) => RegisterKeeps(s, i);
    case StopBegin(i, exchange) => StopBeginKeeps(s, i, exchange);
    case CloseReturns(_) => StoppingKeeps(s, a);
    case CloseThrows(_) => StoppingKeeps(s, a);
    case JoinReturns(_) => StoppingKeeps(s, a);
    case Erase(i) => EraseKeeps(s, i);
    case DropReturns(i) => DropKeeps(s, i);
    case TeardownBegin(i, order) => TeardownBeginKeeps(s, i, order);
    case TeardownNext(i) => TeardownNextKeeps(s, i);
    case ClearBegin(i, order) => ClearBeginKeeps(s, i, order);
    case ClearNext(i) => ClearNextKeeps(s, i);
    case _ => StartKeeps(s, a);
  }

  lemma StepInv(s: Process, a: Action)
    requires Inv(s) && Enabled(s, a)
    ensures Inv(Apply(s, a)) && Evolves(s, Apply(s, a))
  {
    var t := Apply(s, a);
    StepMutex(s, a);
    StepEvolves(s, a);
    forall r | 0 <= r < |t.receivers| ensures ReceiverInv(t, r) {
      if r < |s.receivers| {
        StepReceiver(s, a, r);
      }
    }
    forall i | 0 <= i < |t.instances| ensures RegistryInv(t, i) && ControlInv(t, i) {
      if Acts(a, i) {
        OwnInstance(s, a);
      } else {
        OtherInstance(s, a, i);
        SameRegistry(s, t, i);
        SameControl(s, t, i);
      }
    }
  }

  lemma {:induction false} PathInv(s: Process, acts: seq<Action>, t: Process)
    requires Inv(s) && Path(s, acts, t)
    ensures Inv(t) && Evolves(s, t)
    decreases |acts|
  {
    if acts != [] {
      StepInv(s, acts[0]);
      PathInv(Apply(s, acts[0]), acts[1..], t);
    }
  }

  lemma Reachable(n: nat, acts: seq<Action>, s: Process)
    requires Path(Init(n), acts, s)
    ensures Inv(s) && |s.instances| == n
  {
    InitInv(n);
    PathInv(Init(n), acts, s);
  }

  // ----- what stop promises -----

  /** A worker that has ended never completes another callback, in any continuation of the run. */
  lemma {:induction false} EndedForGood(s: Process, acts: seq<Action>, t: Process, r: nat)
    requires r < |s.receivers| && s.receivers[r].worker == Ended && Path(s, acts, t)
    ensures r < |t.receivers| && t.receivers[r].worker == Ended && t.receivers[r].delivered == s.receivers[r].delivered
    decreases |acts|
  {
    if acts != [] {
      assert s.receivers[r].worker == Ended;
      EndedForGood(Apply(s, acts[0]), acts[1..], t, r);
    }
  }

  /** The steps that the worker still takes once it has been told to stop. */
  function Distance(stage: Stage): nat
  {
    match stage
    case Fetching => 5
    case WantLock(_) => 4
    case InCallback(_) => 3
    case Acknowledging => 2
    case AtLoop => 1
    case Handling => 1
    case Ended => 0
  }

  /** A callback that is still to be completed. */
  function Late(stage: Stage): nat
  {
    if stage.Fetching? || stage.WantLock? || stage.InCallback? then 1 else 0
  }

  predicate StepOf(a: Action, r: nat)
  {
    a.Worker? && a.r == r
  }

  function CountSteps(acts: seq<Action>, r: nat): nat
  {
    if acts == [] then 0 else (if StepOf(acts[0], r) then 1 else 0) + CountSteps(acts[1..], r)
  }

  /** Once a receiver has been told to stop, in any continuation of the run its worker takes at most five more steps
      and completes at most one more callback. */
  lemma {:induction false} BoundedStopping(s: Process, acts: seq<Action>, t: Process, r: nat)
    requires r < |s.receivers| && !s.receivers[r].active && Path(s, acts, t)
    ensures r < |t.receivers| && !t.receivers[r].active
    ensures CountSteps(acts, r) + Distance(t.receivers[r].worker) <= Distance(s.receivers[r].worker) <= 5
    ensures |t.receivers[r].delivered| + Late(t.receivers[r].worker)
         <= |s.receivers[r].delivered| + Late(s.receivers[r].worker) <= |s.receivers[r].delivered| + 1
    decreases |acts|
  {
    if acts != [] {
      var mid := Apply(s, acts[0]);
      assert StepOf(acts[0], r) ==> Distance(mid.receivers[r].worker) < Distance(s.receivers[r].worker);
      assert !StepOf(acts[0], r) ==> mid.receivers[r].worker == s.receivers[r].worker
                                     && mid.receivers[r].delivered == s.receivers[r].delivered;
      BoundedStopping(mid, acts[1..], t, r);
    }
  }

  // ----- stopping and destroying terminate -----

  /** The next step of a worker, apart from waiting for the mutex. */
  function NextMove(stage: Stage): WorkerMove
    requires stage != Ended
  {
    match stage
    case AtLoop => Check
    case Fetching => FetchThrows
    case WantLock(_) => TakeLock
    case InCallback(_) => CallbackReturns
    case Acknowledging => AcknowledgeReturns
    case Handling => HandlerReturns
  }

  function StepRank(at: StopStep): nat
  {
    match at case Close => 4 case Join => 3 case After(_) => 2 case Drop(_) => 1
  }

  /** What an instance still has to do in a stop or in its destructor; each receiver that is yet to be told to stop
      stands for its own stopping, the five steps of its worker, and its destruction. */
  function ControlRank(x: Instance): nat
  {
    match x.control
    case Stopping(_, at, Call(_)) => StepRank(at)
    case Stopping(_, at, Teardown(rest)) => StepRank(at) + 11 * |rest| + |x.registry.Values| + 3
    case Loop(rest) => 11 * |rest| + |x.registry.Values| + 3
    case Clearing(rest) => |rest| + 1
    case _ => 0
  }

  /** The steps left to the workers of instance i that have been told to stop. */
  function StoppedDistance(i: nat): Receiver -> nat
  {
    (r: Receiver) => if r.owner == i && !r.active then Distance(r.worker) else 0
  }

  function Potential(s: Process, i: nat): nat
    requires i < |s.instances|
  {
    ControlRank(s.instances[i]) + Sum(s.receivers, StoppedDistance(i))
  }

  /** A step of the thread of instance i, or of one of its workers that has been told to stop. */
  predicate Concerns(s: Process, a: Action, i: nat)
  {
    if a.Worker? then a.r < |s.receivers| && s.receivers[a.r].owner == i && !s.receivers[a.r].active else a.i == i
  }

  /** Instance i is in the middle of a stop or of its destructor. */
  predicate Busy(s: Process, i: nat)
  {
    i < |s.instances| &&
    (s.instances[i].control.Stopping? || s.instances[i].control.Loop? || s.instances[i].control.Clearing?)
  }

  lemma {:induction false} DistinctWithin(order: seq<nat>, values: set<nat>)
    requires Distinct(order) && forall q :: q in order ==> q in values
    ensures |order| <= |values|
  {
    if order != [] {
      var last := order[|order| - 1];
      DistinctWithin(order[..|order| - 1], values - {last});
    }
  }

  /** A step of a worker uses up the distance of its own receiver. */
  lemma WorkerPotential(s: Process, a: Action, i: nat)
    requires Inv(s) && Busy(s, i) && Enabled(s, a) && a.Worker?
    ensures Potential(Apply(s, a), i) + (if Concerns(s, a, i) then 1 else 0) <= Potential(s, i)
  {
    SumUpdate(s.receivers, a.r, Apply(s, a).receivers[a.r], StoppedDistance(i));
  }

  /** A step of another instance leaves the potential alone. */
  lemma OtherPotential(s: Process, a: Action, i: nat)
    requires Inv(s) && Busy(s, i) && Enabled(s, a) && !a.Worker? && a.i != i
    ensures Potential(Apply(s, a), i) <= Potential(s, i)
  {
    var t := Apply(s, a);
    InstanceStep(s, a);
    OtherInstance(s, a, i);
    if a.StartThread? {
      SumAppend(s.receivers, t.receivers[|s.receivers|], StoppedDistance(i));
    } else {
      forall r | 0 <= r < |s.receivers|
        ensures StoppedDistance(i)(t.receivers[r]) <= StoppedDistance(i)(s.receivers[r])
      {
        if s.receivers[r].owner == i {
          StepSpares(s, a, r);
        }
      }
      SumPointwise(s.receivers, t.receivers, StoppedDistance(i));
    }
  }

  /** A step of the stopping thread itself goes down. */
  lemma JoinPotential(s: Process, a: Action, i: nat)
    requires Inv(s) && Busy(s, i) && Enabled(s, a) && Acts(a, i) && (a.JoinReturns? || a.DropReturns?)
    ensures Potential(Apply(s, a), i) < Potential(s, i)
  {
    assert ControlInv(s, i);
    var r := s.instances[i].control.r;
    SumUpdate(s.receivers, r, Apply(s, a).receivers[r], StoppedDistance(i));
  }

  lemma TeardownPotential(s: Process, a: Action, i: nat)
    requires Inv(s) && Busy(s, i) && Enabled(s, a) && Acts(a, i) && a.TeardownNext?
    ensures Potential(Apply(s, a), i) < Potential(s, i)
  {
    var r := s.instances[i].control.rest[0];
    SumUpdate(s.receivers, r, Apply(s, a).receivers[r], StoppedDistance(i));
  }

  lemma ClearPotential(s: Process, a: Action, i: nat)
    requires Inv(s) && Busy(s, i) && Enabled(s, a) && Acts(a, i) && (a.ClearBegin? || a.ClearNext?)
    ensures Potential(Apply(s, a), i) < Potential(s, i)
  {
    assert ControlInv(s, i);
    var rest := s.instances[i].control.rest;
    if a.ClearBegin? {
      DistinctWithin(a.order, s.instances[i].registry.Values);
    } else if rest != [] {
      assert rest[0] in rest;
      assert ToldToStop(s, i, rest[0]);
      SumUpdate(s.receivers, rest[0], Apply(s, a).receivers[rest[0]], StoppedDistance(i));
    }
  }

  lemma OwnPotential(s: Process, a: Action, i: nat)
    requires Inv(s) && Busy(s, i) && Enabled(s, a) && Acts(a, i)
    ensures Potential(Apply(s, a), i) < Potential(s, i)
  {
    match a
    case JoinReturns(_) => JoinPotential(s, a, i);
    case DropReturns(_) => JoinPotential(s, a, i);
    case TeardownNext(_) => TeardownPotential(s, a, i);
    case ClearBegin(_, _) => ClearPotential(s, a, i);
    case ClearNext(_) => ClearPotential(s, a, i);
    case _ =>
  }

  /** The steps of a run that concern instance i, as long as it is busy. */
  function BusySteps(s: Process, acts: seq<Action>, i: nat): nat
    decreases |acts|
  {
    if acts == [] || !Enabled(s, acts[0]) || !Busy(s, i) then 0
    else (if Concerns(s, acts[0], i) then 1 else 0) + BusySteps(Apply(s, acts[0]), acts[1..], i)
  }

  /** A stop or a destructor that is under way ends after boundedly many steps of its own thread and of the workers it
      has told to stop, whatever all the other threads do in between. */
  lemma {:induction false} BusyIsBounded(s: Process, acts: seq<Action>, i: nat)
    requires Inv(s) && i < |s.instances|
    ensures BusySteps(s, acts, i) <= Potential(s, i)
    decreases |acts|
  {
    if acts != [] && Enabled(s, acts[0]) && Busy(s, i) {
      StepInv(s, acts[0]);
      if acts[0].Worker? {
        WorkerPotential(s, acts[0], i);
      } else if Acts(acts[0], i) {
        OwnPotential(s, acts[0], i);
      } else {
        OtherPotential(s, acts[0], i);
      }
      BusyIsBounded(Apply(s, acts[0]), acts[1..], i);
    }
  }

  /** A receiver that is not in hand has ended, and one that is still waiting for its stop has not been told to. */
  lemma QuietReceiver(s: Process, i: nat, r: nat)
    requires Inv(s) && i < |s.instances| && r < |s.receivers| && s.receivers[r].owner == i
    requires InHand(s.instances[i], r) ==>
      r in s.instances[i].registry.Values && Waiting(s.instances[i].control, r)
    ensures StoppedDistance(i)(s.receivers[r]) == 0
  {
    assert ReceiverInv(s, r) && RegistryInv(s, i);
    if InHand(s.instances[i], r) {
      var exchange := Registered(s, i, r);
      assert Receiving(s, i, r, exchange);
    }
  }

  /** Apart from receiver q, no worker of instance i has been told to stop and is still running. */
  lemma OnlyOneStops(s: Process, i: nat, q: nat)
    requires Inv(s) && i < |s.instances| && q < |s.receivers|
    requires s.instances[i].control.Stopping? && s.instances[i].control.why.Call? && s.instances[i].control.r == q
    ensures Sum(s.receivers, StoppedDistance(i)) <= 5
  {
    var rest := s.receivers[q := s.receivers[q].(worker := Ended)];
    forall r | 0 <= r < |rest| ensures StoppedDistance(i)(rest[r]) == 0 {
      if r != q && s.receivers[r].owner == i {
        QuietReceiver(s, i, r);
      }
    }
    SumZero(rest, StoppedDistance(i));
    SumUpdate(s.receivers, q, rest[q], StoppedDistance(i));
  }

  /** A call of qpidReceiveStop that is under way takes at most nine more steps, its own and those of the worker it
      stops, whatever all the other threads do in between. */
  lemma StopTerminates(n: nat, acts: seq<Action>, s: Process, i: nat, more: seq<Action>)
    requires Path(Init(n), acts, s) && i < |s.instances|
    requires s.instances[i].control.Stopping? && s.instances[i].control.why.Call?
    ensures BusySteps(s, more, i) <= 9
  {
    Reachable(n, acts, s);
    assert ControlInv(s, i);
    OnlyOneStops(s, i, s.instances[i].control.r);
    BusyIsBounded(s, more, i);
  }

  /** The destructor of instance i is at the beginning of its loop. */
  predicate TeardownBegins(s: Process, i: nat)
  {
    i < |s.instances| && s.instances[i].control.Loop? && Lists(s.instances[i].registry, s.instances[i].control.rest)
  }

  lemma NobodyStops(s: Process, i: nat)
    requires Inv(s) && TeardownBegins(s, i)
    ensures Sum(s.receivers, StoppedDistance(i)) == 0
  {
    forall r | 0 <= r < |s.receivers| ensures StoppedDistance(i)(s.receivers[r]) == 0 {
      if s.receivers[r].owner == i {
        QuietReceiver(s, i, r);
      }
    }
    SumZero(s.receivers, StoppedDistance(i));
  }

  /** The destructor, from its beginning, takes at most twelve such steps for each registered receiver, and three. */
  lemma TeardownTerminates(n: nat, acts: seq<Action>, s: Process, i: nat, more: seq<Action>)
    requires Path(Init(n), acts, s) && TeardownBegins(s, i)
    ensures BusySteps(s, more, i) <= 12 * |s.instances[i].registry.Values| + 3
  {
    Reachable(n, acts, s);
    NobodyStops(s, i);
    DistinctWithin(s.instances[i].control.rest, s.instances[i].registry.Values);
    BusyIsBounded(s, more, i);
  }

  lemma {:induction false} SomeOrder(values: set<nat>) returns (order: seq<nat>)
    ensures Distinct(order) && forall q :: q in order <==> q in values
    decreases |values|
  {
    if values == {} {
      order := [];
    } else {
      var q :| q in values;
      var rest := SomeOrder(values - {q});
      order := [q] + rest;
    }
  }

  lemma WorkerMoves(s: Process, r: nat) returns (a: Action)
    requires Inv(s) && r < |s.receivers| && s.receivers[r].worker != Ended
    ensures Enabled(s, a) && a.Worker? && (a.r == r || (s.receivers[r].worker.WantLock? && s.mutex == HeldBy(a.r)))
  {
    var stage := s.receivers[r].worker;
    a := if stage.WantLock? && s.mutex.HeldBy? then Worker(s.mutex.r, CallbackReturns) else Worker(r, NextMove(stage));
  }

  /** A stop or a destructor never waits for good: it can go on itself, or the worker it waits to join can, or that
      worker waits for the mutex and whoever holds it is in a callback that can return. */
  lemma BusyProgress(n: nat, acts: seq<Action>, s: Process, i: nat) returns (a: Action)
    requires Path(Init(n), acts, s) && Busy(s, i)
    ensures Enabled(s, a)
    ensures Concerns(s, a, i) || (s.mutex.HeldBy? && a == Worker(s.mutex.r, CallbackReturns))
  {
    Reachable(n, acts, s);
    assert ControlInv(s, i) && RegistryInv(s, i);
    var x := s.instances[i].control;
    match x {
      case Stopping(r, at, _) =>
        if at.Close? {
          a := CloseReturns(i);
        } else if at.After? {
          a := Erase(i);
        } else if s.receivers[r].worker == Ended {
          a := if at.Join? then JoinReturns(i) else DropReturns(i);
        } else {
          a := WorkerMoves(s, r);
        }
      case Loop(rest) =>
        if rest == [] {
          var order := SomeOrder(s.instances[i].registry.Values);
          a := ClearBegin(i, order);
        } else {
          assert rest[0] in rest;
          var exchange := Registered(s, i, rest[0]);
          a := TeardownNext(i);
        }
      case Clearing(rest) =>
        if rest != [] {
          assert rest[0] in rest && ToldToStop(s, i, rest[0]);
        }
        if rest == [] || s.receivers[rest[0]].worker == Ended {
          a := ClearNext(i);
        } else {
          a := WorkerMoves(s, rest[0]);
        }
    }
  }

  /** When the destructor has returned no worker of the instance is left. */
  lemma NothingLeftBehind(n: nat, acts: seq<Action>, s: Process, i: nat, r: nat)
    requires Path(Init(n), acts, s) && i < |s.instances| && s.instances[i].control == Destroyed
    requires r < |s.receivers| && s.receivers[r].owner == i
    ensures s.receivers[r].worker == Ended && s.receivers[r].joined
  {
    Reachable(n, acts, s);
    assert ReceiverInv(s, r) && ControlInv(s, i);
  }

  // ----- the registry -----

  /** Between calls every entry is a receiver on its own key, told to receive, with a thread that can be joined, even if
      its worker has already died; so receiveStop never finds it inactive, and qpidReceiveStop answers
      QPID_INVALID_PARAM exactly when the exchange is not registered. */
  lemma RegistryConsistent(n: nat, acts: seq<Action>, s: Process, i: nat)
    requires Path(Init(n), acts, s) && i < |s.instances|
    ensures s.instances[i].control == Idle ==>
      forall exchange :: exchange in s.instances[i].registry ==>
        Receiving(s, i, s.instances[i].registry[exchange], exchange)
    ensures s.instances[i].control.Stopping? && s.instances[i].control.at.After? ==>
      s.instances[i].control.at.ret in {QPID_SUCCESS, QPID_ERROR}
  {
    Reachable(n, acts, s);
    assert RegistryInv(s, i) && ControlInv(s, i);
  }

  // ----- when a registered receiver is running -----

  /** The worker of receiver r has left its loop. */
  predicate Dead(s: Process, r: nat)
  {
    r < |s.receivers| && (s.receivers[r].worker == Handling || s.receivers[r].worker == Ended)
  }

  /** An exception leaves the loop of receiver r: the fetch throws, or the acknowledgement does. */
  predicate Throws(a: Action, r: nat)
  {
    a == Worker(r, FetchThrows) || a == Worker(r, AcknowledgeThrows)
  }

  predicate Threw(acts: seq<Action>, r: nat)
  {
    exists k :: 0 <= k < |acts| && Throws(acts[k], r)
  }

  lemma ThrewFirst(acts: seq<Action>, r: nat)
    requires acts != []
    ensures Threw(acts, r) <==> Throws(acts[0], r) || Threw(acts[1..], r)
  {
    assert forall k :: 0 <= k < |acts| - 1 ==> acts[1..][k] == acts[k + 1];
    assert forall k :: 0 < k < |acts| ==> acts[k] == acts[1..][k - 1];
  }

  lemma StepDead(s: Process, a: Action, r: nat)
    requires Enabled(s, a) && (r < |Apply(s, a).receivers| ==> Apply(s, a).receivers[r].active)
    ensures r < |s.receivers| ==> s.receivers[r].active
    ensures Dead(Apply(s, a), r) <==> Dead(s, r) || Throws(a, r)
  {
    if a.Worker? {
      WorkerStep(s, a.r, a.move);
    } else {
      InstanceStep(s, a);
    }
  }

  /** The worker of a receiver that has not been told to stop never leaves its loop by itself: it has left it exactly
      if an exception made it. */
  lemma {:induction false} DeadIffThrew(s: Process, acts: seq<Action>, t: Process, r: nat)
    requires Path(s, acts, t) && r < |t.receivers| && t.receivers[r].active
    ensures r < |s.receivers| ==> s.receivers[r].active
    ensures Dead(t, r) <==> Dead(s, r) || Threw(acts, r)
    decreases |acts|
  {
    if acts != [] {
      DeadIffThrew(Apply(s, acts[0]), acts[1..], t, r);
      StepDead(s, acts[0], r);
      ThrewFirst(acts, r);
    }
  }

  /** When is a receiver "already running"? In every run, whenever QPID_ALREADY is answered, the receiver on that
      exchange has a worker in its loop exactly if neither a fetch nor an acknowledgement of it has ever thrown. */
  lemma AlreadyMeansRunning(n: nat, acts: seq<Action>, s: Process, i: nat, exchange: string)
    requires Path(Init(n), acts, s) && Enabled(s, StartAlready(i, exchange))
    ensures var r := s.instances[i].registry[exchange];
            && r < |s.receivers| && s.receivers[r].exchange == exchange
            && (!Dead(s, r) <==> !Threw(acts, r))
  {
    RegistryConsistent(n, acts, s, i);
    var r := s.instances[i].registry[exchange];
    assert Receiving(s, i, r, exchange);
    DeadIffThrew(Init(n), acts, s, r);
  }

  /** No two workers for the same exchange of one instance are ever alive together. */
  lemma OneLiveWorker(n: nat, acts: seq<Action>, s: Process, q: nat, r: nat)
    requires Path(Init(n), acts, s) && q < r < |s.receivers|
    requires s.receivers[q].owner == s.receivers[r].owner && s.receivers[q].exchange == s.receivers[r].exchange
    ensures s.receivers[q].worker == Ended || s.receivers[r].worker == Ended
  {
    Reachable(n, acts, s);
    var i := s.receivers[q].owner;
    assert ReceiverInv(s, q) && ReceiverInv(s, r);
    assert ControlInv(s, i) && RegistryInv(s, i);
    var x := s.instances[i];
    if InHand(x, q) && InHand(x, r) {
      if q in x.registry.Values {
        var e := Registered(s, i, q);
      }
      if r in x.registry.Values {
        var f := Registered(s, i, r);
      }
    }
  }

  /** Acknowledged messages are a prefix of the delivered ones, those a prefix of the fetched ones, and at most one
      fetched message is not acknowledged: no message is acknowledged before its callback has returned. */
  lemma AcknowledgedAfterDelivery(n: nat, acts: seq<Action>, s: Process, r: nat)
    requires Path(Init(n), acts, s) && r < |s.receivers|
    ensures var x := s.receivers[r];
      && x.acknowledged <= x.delivered <= x.fetched && |x.fetched| <= |x.acknowledged| + 1
      && (x.worker == Ended ==> x.delivered == x.fetched)
  {
    Reachable(n, acts, s);
    assert ReceiverInv(s, r);
  }

  /** At most one receive callback is running, over all receivers and instances, and the mutex is held exactly then. */
  lemma CallbacksExclude(n: nat, acts: seq<Action>, s: Process, q: nat, r: nat)
    requires Path(Init(n), acts, s) && q < |s.receivers| && r < |s.receivers|
    ensures s.receivers[q].worker.InCallback? && s.receivers[r].worker.InCallback? ==> q == r
    ensures s.mutex == Free <==> forall k :: 0 <= k < |s.receivers| ==> !s.receivers[k].worker.InCallback?
  {
    Reachable(n, acts, s);
  }

  // ----- refinement of a set of names -----

  /** The registry as its clients see it: a set of names. What each answer does to it. */
  function AfterAnswer(names: set<string>, a: Answer): set<string>
  {
    match a
    case Started(exchange, _, ret) => if ret == QPID_SUCCESS then names + {exchange} else names
    case Stopped(exchange, _) => names - {exchange}
  }

  /** Which answer the set of names allows. */
  predicate Legal(names: set<string>, a: Answer)
  {
    match a
    case Started(exchange, callback, ret) =>
      if !callback then ret == QPID_ERROR
      else if exchange in names then ret == QPID_ALREADY
      else ret == QPID_SUCCESS || ret == QPID_ERROR
    case Stopped(exchange, ret) =>
      if exchange in names then ret == QPID_SUCCESS || ret == QPID_ERROR else ret == QPID_INVALID_PARAM
  }

  /** The names after a sequence of answered calls. */
  function Names(answers: seq<Answer>): set<string>
  {
    if answers == [] then {} else AfterAnswer(Names(answers[..|answers| - 1]), answers[|answers| - 1])
  }

  predicate AllLegal(answers: seq<Answer>)
  {
    answers == [] ||
    (AllLegal(answers[..|answers| - 1]) && Legal(Names(answers[..|answers| - 1]), answers[|answers| - 1]))
  }

  predicate AnswersInv(x: Instance)
  {
    && AllLegal(x.answers)
    && match x.control
       case Stopping(_, Drop(_), Call(exchange)) => Names(x.answers) == x.registry.Keys + {exchange}
       case Clearing(_) => true
       case Destroyed => true
       case _ => Names(x.answers) == x.registry.Keys
  }

  lemma OneMoreAnswer(answers: seq<Answer>, a: Answer)
    ensures Names(answers + [a]) == AfterAnswer(Names(answers), a)
    ensures AllLegal(answers + [a]) <==> AllLegal(answers) && Legal(Names(answers), a)
  {
    assert (answers + [a])[..|answers|] == answers;
  }

  lemma DropAnswers(s: Process, i: nat)
    requires Inv(s) && Enabled(s, DropReturns(i)) && AnswersInv(s.instances[i])
    ensures AnswersInv(Apply(s, DropReturns(i)).instances[i])
  {
    assert ControlInv(s, i);
    var x, y := s.instances[i], Apply(s, DropReturns(i)).instances[i];
    OneMoreAnswer(x.answers, Stopped(x.control.why.exchange, x.control.at.ret));
  }

  lemma RegisterAnswers(s: Process, i: nat)
    requires Inv(s) && Enabled(s, Register(i)) && AnswersInv(s.instances[i])
    ensures AnswersInv(Apply(s, Register(i)).instances[i])
  {
    assert ControlInv(s, i);
    var x := s.instances[i];
    OneMoreAnswer(x.answers, Started(s.receivers[x.control.r].exchange, true, QPID_SUCCESS));
  }

  lemma AnsweredKeeps(x: Instance, a: Answer)
    requires x.control == Idle && AnswersInv(x)
    requires Legal(x.registry.Keys, a) && AfterAnswer(x.registry.Keys, a) == x.registry.Keys
    ensures AnswersInv(x.(answers := x.answers + [a]))
  {
    OneMoreAnswer(x.answers, a);
  }

  /** The calls that answer at once. */
  lemma ImmediateAnswers(s: Process, a: Action)
    requires Enabled(s, a) && (a.StartNull? || a.StartAlready? || a.StartFails? || a.StopUnknown?)
    requires AnswersInv(s.instances[a.i])
    ensures AnswersInv(Apply(s, a).instances[a.i])
  {
    var answer := match a
      case StartNull(_, exchange) => Started(exchange, false, QPID_ERROR)
      case StartAlready(_, exchange) => Started(exchange, true, QPID_ALREADY)
      case StartFails(_, exchange) => Started(exchange, true, QPID_ERROR)
      case StopUnknown(_, exchange) => Stopped(exchange, QPID_INVALID_PARAM)
      case _ => Stopped("", QPID_ERROR);
    AnsweredKeeps(s.instances[a.i], answer);
  }

  lemma SilentAnswers(s: Process, a: Action)
    requires Inv(s) && Enabled(s, a) && !a.Worker? && AnswersInv(s.instances[a.i])
    requires !a.DropReturns? && !a.Register? && !a.StartNull? && !a.StartAlready? && !a.StartFails? && !a.StopUnknown?
    ensures AnswersInv(Apply(s, a).instances[a.i])
  {
    assert ControlInv(s, a.i);
  }

  lemma StepAnswers(s: Process, a: Action)
    requires Inv(s) && Enabled(s, a) && !a.Worker? && AnswersInv(s.instances[a.i])
    ensures AnswersInv(Apply(s, a).instances[a.i])
  {
    match a
    case DropReturns(i) => DropAnswers(s, i);
    case Register(i) => RegisterAnswers(s, i);
    case StartNull(_, _) => ImmediateAnswers(s, a);
    case StartAlready(_, _) => ImmediateAnswers(s, a);
    case StartFails(_, _) => ImmediateAnswers(s, a);
    case StopUnknown(_, _) => ImmediateAnswers(s, a);
    case _ => SilentAnswers(s, a);
  }

  lemma {:induction false} PathAnswers(s: Process, acts: seq<Action>, t: Process)
    requires Inv(s) && Path(s, acts, t) && forall i :: 0 <= i < |s.instances| ==> AnswersInv(s.instances[i])
    ensures |t.instances| == |s.instances| && forall i :: 0 <= i < |t.instances| ==> AnswersInv(t.instances[i])
    decreases |acts|
  {
    if acts != [] {
      var mid := Apply(s, acts[0]);
      StepInv(s, acts[0]);
      forall i | 0 <= i < |mid.instances| ensures AnswersInv(mid.instances[i]) {
        if Acts(acts[0], i) {
          StepAnswers(s, acts[0]);
        } else {
          OtherInstance(s, acts[0], i);
        }
      }
      PathAnswers(mid, acts[1..], t);
    }
  }

  /** Over every sequence of calls and broker failures, an instance answers like a set of names: a start with a callback
      answers QPID_ALREADY exactly when its name is in the set and adds it only on success, a stop always removes its
      name, and answers QPID_INVALID_PARAM exactly when it was not there. */
  lemma RefinesSetOfNames(n: nat, acts: seq<Action>, s: Process, i: nat)
    requires Path(Init(n), acts, s) && i < |s.instances|
    ensures AllLegal(s.instances[i].answers)
    ensures s.instances[i].control == Idle ==> s.instances[i].registry.Keys == Names(s.instances[i].answers)
  {
    InitInv(n);
    PathAnswers(Init(n), acts, s);
    assert AnswersInv(s.instances[i]);
  }

  /** The last call that instance x answered was a stop of the exchange. */
  predicate JustStopped(x: Instance, exchange: string)
  {
    && x.control == Idle && x.answers != []
    && x.answers[|x.answers| - 1].Stopped? && x.answers[|x.answers| - 1].exchange == exchange
  }

  /** When qpidReceiveStop has answered, with QPID_SUCCESS or QPID_ERROR alike, the exchange is not registered, and
      every worker that this instance ever ran on it has ended. */
  lemma JoinBeforeReturn(n: nat, acts: seq<Action>, s: Process, i: nat, exchange: string, r: nat)
    requires Path(Init(n), acts, s) && i < |s.instances| && JustStopped(s.instances[i], exchange)
    requires r < |s.receivers| && s.receivers[r].owner == i && s.receivers[r].exchange == exchange
    ensures exchange !in s.instances[i].registry && s.receivers[r].worker == Ended
  {
    RefinesSetOfNames(n, acts, s, i);
    Reachable(n, acts, s);
    assert ReceiverInv(s, r);
    if r in s.instances[i].registry.Values {
      var e := Registered(s, i, r);
    }
  }

  /** One instance with one registered receiver, whose worker is in the given stage. */
  function OneReceiver(exchange: string, worker: Stage): Process
  {
    Process([Receiver(0, exchange, true, false, worker, [], [], [])],
            [Instance(map[exchange := 0], Idle, [Started(exchange, true, QPID_SUCCESS)])], Free)
  }

  lemma StartsOne(exchange: string)
    ensures Path(Init(1), [StartThread(0, exchange)] + [Register(0)], OneReceiver(exchange, AtLoop))
  {
    var s := Apply(Init(1), StartThread(0, exchange));
    assert s ==
      Process([Receiver(0, exchange, true, false, AtLoop, [], [], [])], [Instance(map[], Registering(0), [])], Free);
    var t := Apply(s, Register(0));
    assert t.instances[0] == OneReceiver(exchange, AtLoop).instances[0];
    assert t.instances == OneReceiver(exchange, AtLoop).instances;
    assert Apply(s, Register(0)) == OneReceiver(exchange, AtLoop);
    assert Path(OneReceiver(exchange, AtLoop), [Register(0)][1..], OneReceiver(exchange, AtLoop));
    assert Path(s, [Register(0)], OneReceiver(exchange, AtLoop));
    assert ([StartThread(0, exchange)] + [Register(0)])[1..] == [Register(0)];
  }

  lemma WorkerDies(exchange: string)
    ensures Path(OneReceiver(exchange, AtLoop),
                 [Worker(0, Check)] + ([Worker(0, FetchThrows)] + [Worker(0, HandlerReturns)]),
                 OneReceiver(exchange, Ended))
  {
    var s, t := OneReceiver(exchange, Fetching), OneReceiver(exchange, Handling);
    assert Apply(t, Worker(0, HandlerReturns)) == OneReceiver(exchange, Ended);
    assert Path(OneReceiver(exchange, Ended), [Worker(0, HandlerReturns)][1..], OneReceiver(exchange, Ended));
    assert Apply(s, Worker(0, FetchThrows)) == t;
    assert ([Worker(0, FetchThrows)] + [Worker(0, HandlerReturns)])[1..] == [Worker(0, HandlerReturns)];
    assert Apply(OneReceiver(exchange, AtLoop), Worker(0, Check)) == s;
    assert ([Worker(0, Check)] + ([Worker(0, FetchThrows)] + [Worker(0, HandlerReturns)]))[1..]
        == [Worker(0, FetchThrows)] + [Worker(0, HandlerReturns)];
  }

  lemma {:induction false} PathAppend(s: Process, acts: seq<Action>, t: Process, more: seq<Action>, u: Process)
    requires Path(s, acts, t) && Path(t, more, u)
    ensures Path(s, acts + more, u)
    decreases |acts|
  {
    if acts == [] {
      assert acts + more == more;
    } else {
      var mid := Apply(s, acts[0]);
      assert (acts + more)[0] == acts[0] && (acts + more)[1..] == acts[1..] + more;
      PathAppend(mid, acts[1..], t, more, u);
      assert Path(mid, (acts + more)[1..], u);
    }
  }

  /** QPID_ALREADY does not mean that anybody receives: the worker of a registered receiver may have died. */
  lemma AlreadyWithoutWorker(exchange: string) returns (acts: seq<Action>, s: Process)
    ensures Path(Init(1), acts, s) && |s.instances| == 1
    ensures s.instances[0].answers == [Started(exchange, true, QPID_SUCCESS), Started(exchange, true, QPID_ALREADY)]
    ensures |s.receivers| == 1 && s.receivers[0].worker == Ended
  {
    var first := [StartThread(0, exchange)] + [Register(0)];
    var second := [Worker(0, Check)] + ([Worker(0, FetchThrows)] + [Worker(0, HandlerReturns)]);
    var third := [StartAlready(0, exchange)];
    StartsOne(exchange);
    WorkerDies(exchange);
    s := Apply(OneReceiver(exchange, Ended), third[0]);
    assert Path(s, third[1..], s);
    PathAppend(Init(1), first, OneReceiver(exchange, AtLoop), second, OneReceiver(exchange, Ended));
    PathAppend(Init(1), first + second, OneReceiver(exchange, Ended), third, s);
    acts := first + second + third;
  }

  lemma OneMoreStep(s: Process, acts: seq<Action>, t: Process, a: Action, u: Process)
    requires Path(s, acts, t) && Enabled(t, a) && Apply(t, a) == u
    ensures Path(s, acts + [a], u)
  {
    assert Path(u, [a][1..], u);
    PathAppend(s, acts, t, [a], u);
  }

  /** The connection could not be closed; the entry is erased, and its receiver is being destroyed. */
  function CloseFailed(exchange: string): Process
  {
    Process([Receiver(0, exchange, false, false, AtLoop, [], [], [])],
            [Instance(map[], Stopping(0, Drop(QPID_ERROR), Call(exchange)), [Started(exchange, true, QPID_SUCCESS)])],
            Free)
  }

  lemma StopFails(exchange: string) returns (acts: seq<Action>)
    ensures Path(OneReceiver(exchange, AtLoop), acts, CloseFailed(exchange))
  {
    var s0 := OneReceiver(exchange, AtLoop);
    var s1 := Apply(s0, StopBegin(0, exchange));
    var s2 := Apply(s1, CloseThrows(0));
    assert Path(s0, [], s0);
    OneMoreStep(s0, [], s0, StopBegin(0, exchange), s1);
    OneMoreStep(s0, [] + [StopBegin(0, exchange)], s1, CloseThrows(0), s2);
    assert Apply(s2, Erase(0)).instances == CloseFailed(exchange).instances;
    OneMoreStep(s0, [] + [StopBegin(0, exchange)] + [CloseThrows(0)], s2, Erase(0), CloseFailed(exchange));
    acts := [] + [StopBegin(0, exchange)] + [CloseThrows(0)] + [Erase(0)];
  }

  /** QPID_ERROR does not mean that the receiver still receives: a stop whose close throws has removed it, and its
      worker has ended. */
  lemma ErrorStillStops(exchange: string) returns (acts: seq<Action>, s: Process)
    ensures Path(Init(1), acts, s) && |s.instances| == 1 && s.instances[0].registry == map[]
    ensures s.instances[0].answers == [Started(exchange, true, QPID_SUCCESS), Stopped(exchange, QPID_ERROR)]
    ensures |s.receivers| == 1 && s.receivers[0].worker == Ended
  {
    var first := [StartThread(0, exchange)] + [Register(0)];
    StartsOne(exchange);
    var second := StopFails(exchange);
    PathAppend(Init(1), first, OneReceiver(exchange, AtLoop), second, CloseFailed(exchange));
    acts := first + second;
    var s1 := Apply(CloseFailed(exchange), Worker(0, Check));
    s := Apply(s1, DropReturns(0));
    OneMoreStep(Init(1), acts, CloseFailed(exchange), Worker(0, Check), s1);
    OneMoreStep(Init(1), acts + [Worker(0, Check)], s1, DropReturns(0), s);
    acts := acts + [Worker(0, Check)] + [DropReturns(0)];
  }

  // ----- states of runs, for the programs of an instance -----

  /** s is a state of some run. */
  ghost predicate Reached(s: Process)
  {
    exists n, acts :: Path(Init(n), acts, s)
  }

  lemma ReachedPath(s: Process, acts: seq<Action>, t: Process)
    requires Reached(s) && Path(s, acts, t)
    ensures Reached(t)
  {
    var n, before :| Path(Init(n), before, s);
    PathAppend(Init(n), before, s, acts, t);
  }

  /** A registered receiver that is stopped by a call is active, so receiveStop takes its first branch. */
  lemma RegisteredIsActive(s: Process, i: nat, exchange: string)
    requires Reached(s) && IdleAt(s, i) && exchange in s.instances[i].registry
    ensures var r := s.instances[i].registry[exchange]; r < |s.receivers| && s.receivers[r].active
  {
    var n, acts :| Path(Init(n), acts, s);
    Reachable(n, acts, s);
    assert RegistryInv(s, i);
  }

  /** So is the next receiver that the destructor stops. */
  lemma NextIsActive(s: Process, i: nat)
    requires Reached(s) && i < |s.instances| && s.instances[i].control.Loop? && s.instances[i].control.rest != []
    ensures var r := s.instances[i].control.rest[0]; r < |s.receivers| && s.receivers[r].active
  {
    var n, acts :| Path(Init(n), acts, s);
    Reachable(n, acts, s);
    assert ControlInv(s, i) && RegistryInv(s, i);
    var rest := s.instances[i].control.rest;
    assert rest[0] in rest;
    var exchange := Registered(s, i, rest[0]);
  }

  lemma NextToClear(s: Process, i: nat)
    requires Reached(s) && i < |s.instances| && s.instances[i].control.Clearing? && s.instances[i].control.rest != []
    ensures var r := s.instances[i].control.rest[0]; r < |s.receivers| && !s.receivers[r].active
  {
    var n, acts :| Path(Init(n), acts, s);
    Reachable(n, acts, s);
    assert ControlInv(s, i);
    assert s.instances[i].control.rest[0] in s.instances[i].control.rest;
    assert ToldToStop(s, i, s.instances[i].control.rest[0]);
  }

  lemma ReachedReceiver(s: Process, r: nat)
    requires Reached(s) && r < |s.receivers|
    ensures MessagesInv(s.receivers[r])
  {
    var n, acts :| Path(Init(n), acts, s);
    Reachable(n, acts, s);
    assert ReceiverInv(s, r);
  }

  /** qpidReceiveStop calls receiveStop on a registered receiver. */
  lemma StopCalled(s: Process, exchange: string)
    requires Reached(s) && IdleAt(s, 0) && exchange in s.instances[0].registry
    ensures Enabled(s, StopBegin(0, exchange))
    ensures var r := s.instances[0].registry[exchange];
      s.receivers[r].active && Apply(s, StopBegin(0, exchange)) == BeginStop(s, 0, r, Call(exchange))
  {
    RegisteredIsActive(s, 0, exchange);
  }

  /** The destructor calls receiveStop on the next receiver. */
  lemma NextCalled(s: Process)
    requires Reached(s) && |s.instances| > 0 && s.instances[0].control.Loop? && s.instances[0].control.rest != []
    ensures Enabled(s, TeardownNext(0))
    ensures var rest := s.instances[0].control.rest;
      s.receivers[rest[0]].active && Apply(s, TeardownNext(0)) == BeginStop(s, 0, rest[0], Teardown(rest[1..]))
  {
    NextIsActive(s, 0);
  }

  /** join returns. */
  lemma Joined(s: Process)
    requires StoppingAt(s, 0) && s.instances[0].control.at == Join
    requires s.receivers[s.instances[0].control.r].worker == Ended
    ensures Enabled(s, JoinReturns(0))
    ensures var x := s.instances[0].control;
      Apply(s, JoinReturns(0)) ==
        SetControl(SetReceiver(s, x.r, s.receivers[x.r].(joined := true)), 0, x.(at := After(QPID_SUCCESS)))
  {
  }

  /** erase has destroyed the receiver, and the call returns. */
  lemma Dropped(s: Process)
    requires StoppingAt(s, 0) && Joinable(s, s.instances[0].control.r)
    requires s.instances[0].control.at.Drop? && s.instances[0].control.why.Call?
    ensures Enabled(s, DropReturns(0))
    ensures var x := s.instances[0].control;
      Apply(s, DropReturns(0)) == Answered(Destruct(s, x.r), 0, Stopped(x.why.exchange, x.at.ret))
  {
  }

  /** clear has destroyed the next receiver. */
  lemma Cleared(s: Process)
    requires |s.instances| > 0 && s.instances[0].control.Clearing?
    requires s.instances[0].control.rest != [] && Joinable(s, s.instances[0].control.rest[0])
    ensures Enabled(s, ClearNext(0))
    ensures var rest := s.instances[0].control.rest;
      Apply(s, ClearNext(0)) == SetControl(Destruct(s, rest[0]), 0, Clearing(rest[1..]))
  {
  }

  /** Closing has thrown, so nothing has been joined. */
  lemma NotJoined(s: Process, i: nat)
    requires Reached(s) && StoppingAt(s, i) && s.instances[i].control.at.After?
    ensures s.instances[i].control.at.ret == QPID_ERROR ==> !s.receivers[s.instances[i].control.r].joined
  {
    var n, acts :| Path(Init(n), acts, s);
    Reachable(n, acts, s);
    assert ControlInv(s, i);
  }

  lemma MutexHolder(s: Process)
    requires Reached(s) && s.mutex.HeldBy?
    ensures s.mutex.r < |s.receivers| && s.receivers[s.mutex.r].worker.InCallback?
  {
    var n, acts :| Path(Init(n), acts, s);
    Reachable(n, acts, s);
  }

  lemma NoWorkerLeft(s: Process)
    requires Reached(s) && |s.instances| > 0 && s.instances[0].control == Destroyed
    ensures forall r :: 0 <= r < |s.receivers| && s.receivers[r].owner == 0 ==>
      s.receivers[r].worker == Ended && s.receivers[r].joined
  {
    var n, acts :| Path(Init(n), acts, s);
    forall r | 0 <= r < |s.receivers| && s.receivers[r].owner == 0
      ensures s.receivers[r].worker == Ended && s.receivers[r].joined
    {
      NothingLeftBehind(n, acts, s, 0, r);
    }
  }
}
