# Verified model of the two concurrent libraries

The repository holds a PostgreSQL client, which runs its queries as jobs on a hand-written thread pool, and a Qpid
messaging client, which runs one receiver thread per exchange. This project models both protocols and proves what they
promise, over every interleaving of their threads.

Each protocol is a state machine whose steps are the atomic sections of the program, with theorems over all its runs,
and a class whose methods update the program's own fields in place and are proved to take those steps:

- `PoolMachine` and the class in `ThreadPool`: the pool, its queue, condition variable, stop flag and destructor.
- `LockLevel` and `Reentry`: any number of pools and the process-wide callback lock at the level of single lock
  operations. This refines `PoolMachine` and justifies treating a locked section as one step.
- `Database`, `QueryMachine` and the class in `PGClient`: tables, transactions, query jobs and the callback lock.
- `ReceiverMachine`, `ReceiverPrograms` and the classes in `QPIDMessaging`: receivers, their workers and the registry of
  each instance.
- `Programs`: what one thread of any of these machines does, as a list of its own steps with pauses in between.

A method takes schedules of the other threads as arguments, one for each pause in which they may run. Its contract names
its program, and `Programs.Does` says that this is what happened: the method's own steps, each once and in that order, and
in each pause exactly those steps of the schedule that can be taken when their turn comes. So the contract determines the
whole run for all schedules; only in the join loop of the pool's destructor is each step of the others left to the
scheduler. Connector and broker calls are parameters: any of them may throw.

Assumptions, which the code needs:

- User callbacks return normally (a throwing one would leave the callback lock held), and a receiver callback does not
  stop a receiver.
- One thread at a time calls one `QPIDMessaging`, whose map has no lock.
- Reads and writes of the active flag are sequentially consistent.
- After a stop, a blocked fetch eventually returns or throws; `closeConnection` does not throw out of a catch block or a
  destructor.
- A commit that throws has not committed. Exchanges do not change while clients run.

Where the code and its documentation or a natural expectation differ, the model follows the code:

- `QPID_ALREADY` is documented as "already running"; the code answers it whenever the name is registered, even if the
  worker has died (`ReceiverMachine.AlreadyWithoutWorker`). It is right exactly as long as no fetch and no
  acknowledgement of that receiver has thrown (`ReceiverMachine.AlreadyMeansRunning`).
- `QPID_ERROR` from a stop is documented as a failure to stop; the receiver is stopped and removed all the same
  (`ReceiverMachine.JoinBeforeReturn` for every run, `ReceiverMachine.ErrorStillStops` for one that answers it).
- `PG_SUCCESS` from a query is documented as "successfully queried"; it means that a job was accepted, which may still
  fail silently (`QueryMachine.SilentFailure`), which it does exactly if an exception hits its worker
  (`QueryMachine.FailedIffThrown`).
- A row committed before `pgMessageQuery` returns can be missing from the callback's list, because the job may select
  before the call returns (`QueryMachine.RaceLosesRows`). A call is safe under every schedule exactly if no matching row
  is committed while it is under way (`QueryMachine.SafeIffQuietCall`).
- A pool of no workers drops what it accepted when destroyed (`PoolMachine.DrainOnShutdown` is an equivalence).
- The empty name means "all messages" to a query and "no exchange" to a persist (`QueryMachine.PersistAtomicity`), so an
  exchange whose name is empty cannot be addressed: a query on it receives its rows exactly if there are no others
  (`QueryMachine.AnswerIsJoin`, `QueryMachine.EmptyNameMeansEverything`).

## Model

| member | source | states |
|---|---|---|
| PoolMachine.StepInv | project-source/pg-client/pg-common/ThreadPool.h:43-96 | every atomic section of workers, producers and destructor keeps the pool invariant: FIFO history, conservation, wakeup counting, finality of exit, shutdown phases |
| PoolMachine.ExactlyOnce | project-source/pg-client/pg-common/ThreadPool.h:43-81 | in every interleaving the accepted work items are the disjoint union of the queued, the running (at most one per worker) and the finished ones |
| PoolMachine.FifoOrder | project-source/pg-client/pg-common/ThreadPool.h:51-80 | items are dequeued in the order in which enqueue accepted them; a pool of one worker also finishes them in that order |
| PoolMachine.NoLostWakeups | project-source/pg-client/pg-common/ThreadPool.h:46-82 | while a worker is parked, the queue is no longer than pending notifications plus awake workers; a pool with workers that has nothing left to do has finished everything it accepted |
| PoolMachine.WorkIsBounded | project-source/pg-client/pg-common/ThreadPool.h:41-96 | in any interleaving the pool's own steps are bounded by the work present plus 4 per accepted item, 1 per spurious wakeup and 1 per worker at the destructor's notify_all, so it settles without any fairness |
| PoolMachine.ShutdownIsBounded | project-source/pg-client/pg-common/ThreadPool.h:87-96 | once stop is set, every run is shorter than a measure of queue, workers and pending notifications |
| PoolMachine.ShutdownCompletes | project-source/pg-client/pg-common/ThreadPool.h:87-96 | a stopped pool in which nothing more can happen has returned from its destructor: the join loop cannot hang |
| PoolMachine.NeverParkedAgain | project-source/pg-client/pg-common/ThreadPool.h:47-93 | after notify_all nobody ever waits on the condition variable again |
| PoolMachine.DrainOnShutdown | project-source/pg-client/pg-common/ThreadPool.h:87-96 | when the destructor has returned, everything accepted has been executed if and only if the pool had a worker or accepted nothing |
| PoolMachine.NoWorkersNoDrain | project-source/pg-client/pg-common/ThreadPool.h:34-96 | the run that shows the exception: a pool of no workers accepts an item and is destroyed without executing it |
| PoolMachine.ExitEndsTheQueue | project-source/pg-client/pg-common/ThreadPool.h:49-80 | once a worker has exited, the queue stays empty and nothing is accepted any more |
| ThreadPool.ThreadPool.constructor | project-source/pg-client/pg-common/ThreadPool.h:34-59 | launches the given number of workers, with empty queue and stop unset |
| ThreadPool.ThreadPool.Push | project-source/pg-client/pg-common/ThreadPool.h:73-81 | the locked section of enqueue: it throws exactly when stop is set, else appends and owes a notification |
| ThreadPool.ThreadPool.NotifyOneWaiter | project-source/pg-client/pg-common/ThreadPool.h:82 | notify_one releases some waiting worker if there is one |
| ThreadPool.ThreadPool.WorkerSection | project-source/pg-client/pg-common/ThreadPool.h:45-53 | the locked section of a worker is the machine's park, exit or dequeue-first step |
| ThreadPool.ThreadPool.TaskReturns | project-source/pg-client/pg-common/ThreadPool.h:55 | the end of an item's execution is the machine's finish step |
| ThreadPool.ThreadPool.SpuriousWakeup | project-source/pg-client/pg-common/ThreadPool.h:47-48 | a parked worker may wake without notification |
| ThreadPool.ThreadPool.StopPool | project-source/pg-client/pg-common/ThreadPool.h:89-92 | the destructor's locked section sets stop |
| ThreadPool.ThreadPool.NotifyAllWaiters | project-source/pg-client/pg-common/ThreadPool.h:93 | notify_all, as a loop over the workers, makes every waiting worker head for the lock |
| ThreadPool.ThreadPool.Do | project-source/pg-client/pg-common/ThreadPool.h:43-96 | every enabled step of the machine is realised on the fields |
| ThreadPool.ThreadPool.Others | project-source/pg-client/pg-common/ThreadPool.h:41-83 | the other threads follow any schedule: each of its steps is taken exactly if it is possible when its turn comes and does not use up the caller's notification or act for the destructor |
| ThreadPool.ScheduleIsFollowed | project-source/pg-client/pg-common/ThreadPool.h:41-83 | a schedule whose steps are all possible in turn is followed to its end, with nothing added |
| ThreadPool.ThreadPool.EnqueueTask | project-source/pg-client/pg-common/ThreadPool.h:63-84 | enqueue accepts exactly when stop was unset; it pushes once, the others follow the schedule, and it notifies once, as its last step; alone, it adds the item at the end of the queue and wakes one parked worker if there is one |
| ThreadPool.ThreadPool.OtherThread | project-source/pg-client/pg-common/ThreadPool.h:94-95 | while the destructor waits in a join, some other thread can always take a step |
| ThreadPool.ThreadPool.JoinAll | project-source/pg-client/pg-common/ThreadPool.h:94-95 | the join loop terminates whatever step the scheduler picks each time |
| ThreadPool.ThreadPool.BeginDestroy | project-source/pg-client/pg-common/ThreadPool.h:89-93 | the destructor sets stop, the others follow any schedule and nothing more is accepted, and it notifies all |
| ThreadPool.ThreadPool.Destroy | project-source/pg-client/pg-common/ThreadPool.h:87-96 | with any interference after stop is set, the destructor returns with every worker exited and, given a worker, the queue drained in order and everything accepted finished |
| LockLevel.StepRefines | project-source/pg-client/pg-common/ThreadPool.h:45-96 | each single lock operation is, for each pool, no step or one whole-section step of the pool machine |
| LockLevel.PathRefines | project-source/pg-client/pg-common/ThreadPool.h:45-96 | every interleaving of lock operations of any number of pools is, pool by pool, a run of the pool machine with the same histories |
| LockLevel.StepLocksExact | project-source/pg-client/pg-common/ThreadPool.h:45-92 | every lock is held exactly by the thread inside its section, after every step |
| LockLevel.MutualExclusion | project-source/pg-client/src/PGClient.cpp:68-70 | over any number of pools at most one callback runs, and no queue lock has two holders; a lock is free exactly when nobody is inside |
| LockLevel.NoCyclicWait | project-source/pg-client/src/PGClient.cpp:68-97 | waiting strictly descends a rank, also through callbacks that re-enter enqueue and through destructors that join; whoever holds a queue lock waits for nothing |
| LockLevel.DeadlockFree | project-source/pg-client/pg-common/ThreadPool.h:45-96 | a process in which no thread has a step of its own has all locks free, no call in progress, and every pool with workers has finished all it accepted |
| Reentry.CallbackReenters | project-source/pg-client/src/PGClient.cpp:68-97 | a run in which a callback calls enqueue and waits there for a queue lock that another worker holds |
| Reentry.CallbackMayCall | project-source/pg-client/src/PGClient.cpp:68-97 | whoever is in its callback may call enqueue on any pool, and keeps the callback lock while it waits |
| LockLevel.OwnStepsAreBounded | project-source/pg-client/pg-common/ThreadPool.h:45-96 | in any run of lock operations the threads' own steps are at most 6 per worker, 5 and its size per pool, and 11 per call of enqueue, 2 per use of the callback lock and 3 per spurious wakeup, so it comes to that end under any schedule |
| Database.Lookup | project-source/pg-client/src/PGClient.cpp:86-93 | finds an id exactly if the name exists, and then the id of an exchange of that name |
| Database.SelectMembers | project-source/pg-client/src/PGClient.cpp:59-66 | the query returns exactly the rows that match its filter |
| Database.TwoStepLookup | project-source/pg-client/src/PGClient.cpp:59-97 | name to id, then id to rows, equals the join on the name if and only if the id is not the reserved -1 or every message is on that exchange |
| Database.JoinIsAll | project-source/pg-client/src/PGClient.cpp:59-63 | the unfiltered statement returns the rows of one exchange, even in number, exactly if every message is on it |
| Database.LookupEqualsJoin | docker/scripts/init.sql:1-13 | under the schema (unique names, serial ids) the two-step lookup of a known name is the join |
| Database.ExchangesPartitionMessages | project-source/pg-client/src/PGClient.cpp:59-63 | the unfiltered query is the disjoint union of the queries on every exchange and the rows without exchange |
| QueryMachine.StepInv | project-source/pg-client/src/PGClient.cpp:16-105 | every step of persists, queries, jobs, pool and callback lock keeps the process invariant |
| QueryMachine.QuerySnapshot | project-source/pg-client/src/PGClient.cpp:47-97 | a callback receives exactly the answer on the table at its job's SELECT: all matching rows committed before acceptance, none committed after the callback began |
| QueryMachine.LaterIsSuperset | project-source/pg-client/src/PGClient.cpp:58-69 | of two queries on one exchange the later SELECT delivers a superset |
| QueryMachine.CommittedIsDelivered | project-source/pg-client/src/PGClient.cpp:38-69 | the row of a successful persist is in the list of every query on its exchange, or on everything, accepted after its commit |
| QueryMachine.ReadYourWrites | project-source/pg-client/src/PGClient.cpp:38-105 | once a persist has answered PG_SUCCESS, every query called later on that exchange, or on everything, delivers its row, with the payload and exchange of the persist, in every continuation |
| QueryMachine.QuietCallDeliversAll | project-source/pg-client/src/PGClient.cpp:76-105 | in every run, a query during whose call no matching row is committed delivers every matching row committed before the call returned |
| QueryMachine.RaceLosesRows | project-source/pg-client/src/PGClient.cpp:76-105 | for every table, every name that resolves and all rows that persists can write, a run that commits them before the return and before the callback, which receives none of them |
| QueryMachine.SafeIffQuietCall | project-source/pg-client/src/PGClient.cpp:76-105 | every schedule delivers all matching rows committed before the return if and only if none of the rows committed while the call is under way matches |
| QueryMachine.AnswerIsJoin | project-source/pg-client/src/PGClient.cpp:59-63 | on every table the query on a known name is the join on it if and only if the name is not empty or every message is on that exchange |
| QueryMachine.EmptyNameMeansEverything | project-source/pg-client/src/PGClient.cpp:58-69 | in every run the callback on a known name receives the rows of that exchange if and only if the name is not empty or there are no others |
| QueryMachine.FailedAreThrown | project-source/pg-client/src/PGClient.cpp:71-73 | over any run the jobs that end as failures are, in order and number, the exceptions that hit their workers |
| QueryMachine.FailedIffThrown | project-source/pg-client/src/PGClient.cpp:71-73 | in every run an ended job has failed exactly if an exception hit its worker; otherwise its callback has run |
| QueryMachine.SilentFailure | project-source/pg-client/src/PGClient.cpp:71-105 | for every table and every name that resolves, a run in which the call has returned PG_SUCCESS and the job has ended without a callback |
| QueryMachine.QueryAccounting | project-source/pg-client/src/PGClient.cpp:47-105 | accepted jobs are the PG_SUCCESS answers given or on their way; no job ends twice; callbacks run plus silent failures are the finished jobs |
| QueryMachine.CallbacksExclude | project-source/pg-client/src/PGClient.cpp:68-70 | at most one query callback runs, and the lock is held by a worker exactly while its callback runs |
| QueryMachine.PersistAtomicity | project-source/pg-client/src/PGClient.cpp:16-42 | over any run the rows added are the PG_SUCCESS persists, one row each, with payload and exchange of the call, and every exchange id exists |
| QueryMachine.QueriesComplete | project-source/pg-client/src/PGClient.cpp:47-105 | a live client that cannot move any more, even if no connector call ever throws again, has returned every call and ended every accepted job exactly once |
| QueryMachine.QueriesAreBounded | project-source/pg-client/src/PGClient.cpp:47-105 | in any run the client's own steps are at most one per worker, 7 per accepted query and 1 per spurious wakeup and callback of another client, so it gets to that end under any schedule |
| PGClient.PGClient.constructor | project-source/pg-client/src/PGClient.cpp:7-10 | a client starts with a pool of five idle workers |
| PGClient.PGClient.FindExchange | project-source/pg-client/src/PGClient.cpp:81-93 | the opening connector calls succeed exactly if none of those made throws and the exchange is known or empty, call by call |
| PGClient.ScheduleIsFollowed | project-source/pg-client/src/PGClient.cpp:47-105 | a schedule that is a run and leaves alone what the thread owns is followed to its end, with nothing added |
| PGClient.DoesIsPath | project-source/pg-client/src/PGClient.cpp:12-105 | what a method does is a run of the process |
| PGClient.PGClient.PgMessagePersist | project-source/pg-client/src/PGClient.cpp:12-45 | its own steps are one call, at most one INSERT and one answer, in that order, with the others following their schedules in between; PG_SUCCESS exactly if none of the named connector calls throws and the exchange is known, and then its row is the last one committed; every other new row, with PG_ERROR every new row, was committed by another thread |
| PGClient.PersistRows | project-source/pg-client/src/PGClient.cpp:12-45 | before its COMMIT a persist has added nothing: all new rows were committed by the others, in its pauses |
| PGClient.PGClient.PgMessageQuery | project-source/pg-client/src/PGClient.cpp:76-105 | PG_SUCCESS exactly if none of the named connector calls throws and the name resolves, and then its own steps are one push, one notification and the return; with PG_ERROR nothing but the others' steps has happened; alone, it adds exactly one job, at the end of the queue |
| PGClient.OneJobPerCall | project-source/pg-client/src/PGClient.cpp:94-97 | whatever the schedules, one call adds one job, and all other new jobs are the others' |
| PGClient.PGClient.Submit | project-source/pg-client/src/PGClient.cpp:94-97 | push, one notification and return of the call, each once and in that order, with the others following their schedules in between |
| PGClient.PGClient.AwaitLock | project-source/pg-client/src/PGClient.cpp:68 | a job waits while others follow any schedule, taking and releasing the callback lock; exactly if it is then still held its holder leaves, and nothing else happens |
| PGClient.PGClient.EnterCallback | project-source/pg-client/src/PGClient.cpp:68-69 | the job takes the lock with the rows of its SELECT |
| PGClient.PGClient.LeaveCallback | project-source/pg-client/src/PGClient.cpp:69-70 | the callback has received those rows, whatever is committed meanwhile, and the lock is released |
| PGClient.PGClient.QueryExchange | project-source/pg-client/src/PGClient.cpp:47-74 | its own steps are one SELECT, lock, callback and unlock, or an exception; it fails exactly if one of the six named connector calls throws, and otherwise calls back once with the rows its SELECT finds, in the order of the server, under any schedules |
| ReceiverMachine.StepInv | project-source/qpid-messaging/qpid-receiver/src/QPIDReceiver.cpp:12-79 | every step of workers, API calls and destructors keeps message, registry, hand-over and mutex invariants |
| ReceiverMachine.JoinBeforeReturn | project-source/qpid-messaging/src/QPIDMessaging.cpp:48-60 | once a stop has answered, with success or error, the exchange is not registered, and every worker the instance ever ran on it has ended |
| ReceiverMachine.EndedForGood | project-source/qpid-messaging/qpid-receiver/src/QPIDReceiver.cpp:61-79 | a worker that has ended delivers nothing more in any continuation of the run |
| ReceiverMachine.BoundedStopping | project-source/qpid-messaging/qpid-receiver/src/QPIDReceiver.cpp:23-30 | after the flag is cleared the worker takes at most five steps and completes at most one callback, in any continuation |
| ReceiverMachine.StopTerminates | project-source/qpid-messaging/src/QPIDMessaging.cpp:48-60 | a stop under way takes at most nine more steps of its own thread and of the worker it stops, whatever everybody else does |
| ReceiverMachine.TeardownTerminates | project-source/qpid-messaging/src/QPIDMessaging.cpp:10-15 | the destructor takes at most twelve such steps for each registered receiver, and three |
| ReceiverMachine.BusyProgress | project-source/qpid-messaging/qpid-receiver/src/QPIDReceiver.cpp:61-79 | a stop or destructor never blocks for good: it, the awaited worker, or the callback that worker waits for can go on |
| ReceiverMachine.NothingLeftBehind | project-source/qpid-messaging/src/QPIDMessaging.cpp:10-15 | after the destructor no worker of the instance is alive |
| ReceiverMachine.RegistryConsistent | project-source/qpid-messaging/src/QPIDMessaging.cpp:29-60 | between calls each entry is active, on its own key and joinable; receiveStop never finds its receiver inactive |
| ReceiverMachine.OneLiveWorker | project-source/qpid-messaging/src/QPIDMessaging.cpp:32-41 | no two workers for one exchange of one instance are ever alive together |
| ReceiverMachine.AcknowledgedAfterDelivery | project-source/qpid-messaging/qpid-receiver/src/QPIDReceiver.cpp:22-36 | acknowledged is a prefix of delivered, delivered of fetched, and fetched exceeds acknowledged by at most one |
| ReceiverMachine.CallbacksExclude | project-source/qpid-messaging/qpid-receiver/src/QPIDReceiver.cpp:25-28 | over all receivers and instances at most one receive callback runs, and the mutex is free exactly when none does |
| ReceiverMachine.RefinesSetOfNames | project-source/qpid-messaging/src/QPIDMessaging.cpp:29-60 | over every sequence of calls and failures an instance answers as a set of names: ALREADY exactly when present, added only on success, always removed by stop, INVALID_PARAM exactly when absent |
| ReceiverMachine.AlreadyMeansRunning | project-source/qpid-messaging/src/QPIDMessaging.cpp:32-34 | in every run, when QPID_ALREADY is answered the worker of that exchange is in its loop if and only if no fetch and no acknowledgement of it has thrown |
| ReceiverMachine.DeadIffThrew | project-source/qpid-messaging/qpid-receiver/src/QPIDReceiver.cpp:21-36 | the worker of a receiver not told to stop has left its loop exactly if an exception made it, between any two states of a run |
| ReceiverMachine.AlreadyWithoutWorker | project-source/qpid-messaging/src/QPIDMessaging.cpp:32-34 | a run in which QPID_ALREADY is answered although the worker of the exchange has died |
| ReceiverMachine.ErrorStillStops | project-source/qpid-messaging/src/QPIDMessaging.cpp:48-60 | a run in which a stop answers QPID_ERROR and the receiver is gone and its worker has ended |
| ReceiverPrograms.StopIsHeard | project-source/qpid-messaging/qpid-receiver/src/QPIDReceiver.cpp:23-30 | if the receiver is told to stop in any pause of a round of waitForMessages, where that is possible, that round is the last and the worker ends |
| ReceiverPrograms.ScheduleIsFollowed | project-source/qpid-messaging/qpid-receiver/src/QPIDReceiver.cpp:21-79 | a schedule that is a run and leaves alone what the thread owns is followed to its end, with nothing added |
| ReceiverPrograms.DoesIsPath | project-source/qpid-messaging/qpid-receiver/src/QPIDReceiver.cpp:21-79 | what a method does is a run of the process |
| QPIDMessaging.QPIDReceiver.WorkerDo | project-source/qpid-messaging/qpid-receiver/src/QPIDReceiver.cpp:23-35 | every step of the machine's worker, on the receiver's own fields |
| QPIDMessaging.QPIDMessaging.Others | project-source/qpid-messaging/qpid-receiver/src/QPIDReceiver.cpp:21-79 | the other threads follow any schedule: each of its steps is taken exactly if it is possible when its turn comes and is not the executing thread's |
| QPIDMessaging.QPIDMessaging.AwaitMutex | project-source/qpid-messaging/qpid-receiver/src/QPIDReceiver.cpp:25 | the worker waits while others follow any schedule, taking and releasing the process-wide mutex; exactly if it is then still held its holder leaves, and nothing else happens |
| QPIDMessaging.QPIDMessaging.EnterCallback | project-source/qpid-messaging/qpid-receiver/src/QPIDReceiver.cpp:25 | and then it takes the mutex with its message, as the next step |
| QPIDMessaging.QPIDMessaging.Deliver | project-source/qpid-messaging/qpid-receiver/src/QPIDReceiver.cpp:25-28 | lock, callback and unlock, each once, interleaved with all other threads: the fetched message is delivered |
| QPIDMessaging.QPIDMessaging.ReceiveRound | project-source/qpid-messaging/qpid-receiver/src/QPIDReceiver.cpp:24-29 | one round of the loop, step by step: the fetched message is delivered and acknowledged, or an exception leaves the loop |
| QPIDMessaging.QPIDMessaging.ReceiveLoop | project-source/qpid-messaging/qpid-receiver/src/QPIDReceiver.cpp:22-30 | the loop along any script of broker rounds, under any interference: where it is left and what has then been fetched, delivered and acknowledged |
| QPIDMessaging.QPIDMessaging.WaitForMessages | project-source/qpid-messaging/qpid-receiver/src/QPIDReceiver.cpp:21-36 | its own steps are exactly those of the rounds gone through, its last test or its catch block; every fetched message is delivered in order and acknowledged, except the last if its acknowledgement threw; it ends by an exception or when told to stop, and fetches nothing if told before |
| QPIDMessaging.QPIDMessaging.constructor | project-source/qpid-messaging/src/QPIDMessaging.cpp:5-8 | an instance starts with no receivers |
| QPIDMessaging.QPIDMessaging.QpidReceiveMessages | project-source/qpid-messaging/src/QPIDMessaging.cpp:29-46 | the answer as documented by cases, by exactly the steps of that case; on success the new receiver is registered, and alone its worker is about to read the flag, which is set; on failure or exception nothing changes |
| QPIDMessaging.QPIDMessaging.StartAndRegister | project-source/qpid-messaging/src/QPIDMessaging.cpp:37-41 | one launch and one registration; between them the others, the new worker among them, follow any schedule |
| QPIDMessaging.QPIDMessaging.ReceiveStop | project-source/qpid-messaging/qpid-receiver/src/QPIDReceiver.cpp:61-79 | on an active or inactive receiver: QPID_INVALID_PARAM exactly if not active, QPID_ERROR if closing throws, and then nothing is joined, else QPID_SUCCESS, and then the worker has ended and is joined; it is told to stop in every case |
| QPIDMessaging.QPIDMessaging.CloseAndJoin | project-source/qpid-messaging/qpid-receiver/src/QPIDReceiver.cpp:67-76 | closing may throw; on QPID_SUCCESS the worker has ended and is joined |
| QPIDMessaging.QPIDMessaging.AwaitWorker | project-source/qpid-messaging/qpid-receiver/src/QPIDReceiver.cpp:69 | waiting in a join terminates along any schedules of the other threads, as each worker step brings the end closer |
| QPIDMessaging.QPIDMessaging.QpidReceiveStop | project-source/qpid-messaging/src/QPIDMessaging.cpp:48-60 | its own steps are those of receiveStop, erase and the return, with the others following any schedules; it removes exactly that entry; QPID_INVALID_PARAM exactly if it is absent, QPID_ERROR exactly if closing threw; in both other cases the worker has ended |
| QPIDMessaging.QPIDMessaging.EraseAndDrop | project-source/qpid-messaging/src/QPIDMessaging.cpp:56 | erasing the entry destroys the receiver, whose worker has then ended, also after a failed close |
| QPIDMessaging.QPIDMessaging.StopNext | project-source/qpid-messaging/src/QPIDMessaging.cpp:11-13 | one round of the destructor's loop: the receiver is told to stop, and joined exactly if closing does not throw |
| QPIDMessaging.QPIDMessaging.ClearOne | project-source/qpid-messaging/src/QPIDMessaging.cpp:14 | clearing the map joins a worker that is still on its way out: it has ended |
| QPIDMessaging.QPIDMessaging.Destroy | project-source/qpid-messaging/src/QPIDMessaging.cpp:10-15 | by the steps of its two loops over the receivers in any traversal order, under any interference, the destructor returns, leaving no entry and no live worker |

## Left out

- `PGConnector` and `QPIDBrokerConnector`: represented by calls that may throw, an abstract table and an abstract source of messages.
- SQL text, quoting and column lengths: a statement is an operation on the table, and an over-long payload is one of the inserts that throw.
- `QPIDSender` and the two send operations: straight-line calls with one catch.
- Destruction of a `PGClient` with jobs pending: the connector is released before the pool is joined, so nothing is claimed there.
- Callbacks that throw, callbacks that stop a receiver, and simultaneous calls on one `QPIDMessaging`: the code gives no guarantee.
- Destruction of a pool or client from inside a query callback.
- `bind`, `packaged_task` and futures: a unit of work is a number, and an exception inside it does not end the worker.
- The C++ memory model, real time and scheduler fairness: steps are sequentially consistent, and termination is by measures.
- Opening and closing of broker connections as such: only whether closing throws matters to the protocol.
- QPIDMessaging.QPIDMessaging.AwaitWorker: the schedules may contain any finite contention for the mutex; after them its holder leaves and the awaited worker gets it. That other threads might take it first for ever is not excluded, as the program does not exclude it.
- QPIDMessaging.QPIDMessaging.AwaitMutex: likewise, the mutex is free after any finite contention.
- QPIDMessaging.QPIDMessaging.EnterCallback: likewise, the worker gets the mutex after any finite contention.
- QPIDMessaging.QPIDMessaging.EraseAndDrop: the registry holds positions in the list of receiver objects, so reference counts are not modelled; the program never shares a receiver outside its map.
- PGClient.PGClient.AwaitLock: the schedule may contain any finite contention for the lock; after it the lock is granted once its holder leaves. That other threads might take it first for ever is not excluded, as the program does not exclude it.
- Logging, build files, containers, scripts, the interactive program and the unit tests.
