/** The queue with everyone who uses it: clients that create, join and leave, any number of workers, and any
    number of recoveries, all interleaving freely between the atomic scripts and list commands.
    A worker's value is its program counter together with what it has read so far. */
module JobSystem {
  import opened Wrappers
  import opened JobTypes
  import opened JobScripts

  /** How an executor comes back: normally, with an error, with the queue's own "job is cancelled",
      or because the process is shutting down. */
  datatype Ending = Finished | Broke | SawCancelled | Interrupted

  datatype Worker =
    | Idle
    | Claimed(id: JobId)                                            // before the first read of the job
    | Checking(id: JobId)                                           // read as live; before the cancel flag
    | Executing(id: JobId, told: bool)                              // told: the reporter has said "cancelled"
    | Reporting(id: JobId, told: bool, seen: Job, next: State)      // between a reporter's read and its write
    | Settling(id: JobId, ending: Ending)                           // before the read after the executor
    | Forcing(id: JobId, ending: Ending)                            // read as live; before the forced transition
    | ForcingWrite(id: JobId, ending: Ending, seen: Job)            // between that transition's read and write
    | Acking(id: JobId)                                             // before the acknowledgement
    | Stopped(left: Option<JobId>)                                  // returned, leaving its job in processing

  datatype Report = Report(message: string, progress: int, result: string, eventId: string, now: int)

  datatype Action =
    | Claim
    | Look
    | CheckFlag
    | AskCancelled
    | BeginReport(next: State)
    | EndReport(report: Report)
    | Return(ending: Ending)
    | LookAgain
    | BeginForce
    | EndForce(eventId: string, now: int)
    | Ack
    | Halt

  datatype Step =
    | Create(request: CreateRequest, draw: Draw)
    | BeginLeave(id: JobId, key: SubscriberKey)
    | EndLeave(leave: Leave, eventId: string, now: int)
    | Spawn(worker: nat)
    | Vanish(worker: nat)
    | Work(worker: nat, action: Action)
    | Pop
    | Judge(id: JobId)
    | Push(id: JobId)

  /** Identifiers that a recovery has popped are `popped` until their job is read and `requeuing` until
      they are pushed back; `leaving` holds the departures that have read their job. */
  datatype System = System(
    db: Db,
    maxQueued: int,
    workers: map<nat, Worker>,
    popped: multiset<JobId>,
    requeuing: multiset<JobId>,
    leaving: multiset<Leave>)

  function Initial(maxQueued: int): System {
    System(EMPTY_DB, maxQueued, map[], multiset{}, multiset{}, multiset{})
  }

  function Held(worker: Worker): Option<JobId> {
    match worker
    case Idle => None
    case Stopped(left) => left
    case _ => Some(worker.id)
  }

  // ----- one worker -----

  const FORCED_AFTER_RETURN := "The development worker ended without a terminal job state."
  const FORCED_AFTER_ERROR := "The development worker could not complete the job."

  /** The forced transition to failed, with the message of the path that led to it. */
  function ForcedWrite(id: JobId, ending: Ending, seen: Job, eventId: string, now: int): Write {
    var message := if ending == Finished then FORCED_AFTER_RETURN else FORCED_AFTER_ERROR;
    Write(id, seen.fingerprint, Failed, message, 100, "", eventId, now)
  }

  function ReportedWrite(id: JobId, seen: Job, next: State, report: Report): Write {
    Write(id, seen.fingerprint, next, report.message, report.progress, report.result, report.eventId, report.now)
  }

  /** What must hold before a worker can take an action: the program counter, a non-empty queue to claim from,
      the argument checks of a transition, and the executor's promise about cancellation. */
  predicate CanAct(db: Db, worker: Worker, action: Action) {
    match action
    case Claim => worker.Idle? && db.queue != []
    case Look => worker.Claimed?
    case CheckFlag => worker.Checking?
    case AskCancelled => worker.Executing?
    case BeginReport(next) => worker.Executing? && next != Queued
    case EndReport(report) => worker.Reporting? && 0 <= report.progress <= 100
    case Return(ending) => worker.Executing? && (ending == SawCancelled ==> worker.told)
    case LookAgain => worker.Settling?
    case BeginForce => worker.Forcing?
    case EndForce(_, _) => worker.ForcingWrite?
    case Ack => worker.Acking?
    case Halt => !worker.Stopped?
  }

  function Act(db: Db, worker: Worker, action: Action): (Db, Worker)
    requires CanAct(db, worker, action)
  {
    match action
    case Claim =>
      var (after, id) := ClaimStep(db);
      (after, Claimed(id))
    case Look =>
      (db, if worker.id !in db.jobs || db.jobs[worker.id].state.Terminal() then Acking(worker.id)
           else Checking(worker.id))
    case CheckFlag =>
      (db, if worker.id in db.cancelFlags then Acking(worker.id) else Executing(worker.id, false))
    case AskCancelled =>
      (db, Executing(worker.id, worker.told || worker.id in db.cancelFlags))
    case BeginReport(next) =>
      (db, if worker.id in db.jobs && AllowedTransition(db.jobs[worker.id].state, next)
           then Reporting(worker.id, worker.told, db.jobs[worker.id], next)
           else worker)
    case EndReport(report) =>
      var reply := TransitionScript(db, ReportedWrite(worker.id, worker.seen, worker.next, report));
      (reply.db, Executing(worker.id, worker.told || reply.outcome.AlreadyCancelled?))
    case Return(ending) =>
      (db, match ending
           case Interrupted => Stopped(Some(worker.id))
           case SawCancelled => Acking(worker.id)
           case _ => Settling(worker.id, ending))
    case LookAgain =>
      (db, if worker.id !in db.jobs then Stopped(Some(worker.id))
           else if db.jobs[worker.id].state.Terminal() then Acking(worker.id)
           else Forcing(worker.id, worker.ending))
    case BeginForce =>
      (db, if worker.id in db.jobs && AllowedTransition(db.jobs[worker.id].state, Failed)
           then ForcingWrite(worker.id, worker.ending, db.jobs[worker.id])
           else Stopped(Some(worker.id)))
    case EndForce(eventId, now) =>
      var reply := TransitionScript(db, ForcedWrite(worker.id, worker.ending, worker.seen, eventId, now));
      (reply.db, if reply.outcome.Moved? then Acking(worker.id) else Stopped(Some(worker.id)))
    case Ack =>
      (AckStep(db, worker.id), Idle)
    case Halt =>
      (db, Stopped(Held(worker)))
  }

  // ----- the whole system -----

  predicate Enabled(s: System, step: Step) {
    match step
    case Create(_, draw) => draw.jobId !in s.db.jobs
    case BeginLeave(id, _) => id in s.db.jobs
    case EndLeave(leave, _, _) => leave in s.leaving
    case Spawn(worker) => worker !in s.workers
    case Vanish(worker) => worker in s.workers
    case Work(worker, action) => worker in s.workers && CanAct(s.db, s.workers[worker], action)
    case Pop => s.db.processing != []
    case Judge(id) => id in s.popped
    case Push(id) => id in s.requeuing
  }

  function Do(s: System, step: Step): System
    requires Enabled(s, step)
  {
    match step
    case Create(request, draw) =>
      s.(db := CreateOrJoinScript(s.db, request, draw, s.maxQueued).db)
    case BeginLeave(id, key) =>
      s.(leaving := s.leaving + multiset{Leave(id, key, s.db.jobs[id].fingerprint)})
    case EndLeave(leave, eventId, now) =>
      s.(db := UnsubscribeScript(s.db, leave, eventId, now).db, leaving := s.leaving - multiset{leave})
    case Spawn(worker) =>
      s.(workers := s.workers[worker := Idle])
    case Vanish(worker) =>
      s.(workers := s.workers - {worker})
    case Work(worker, action) =>
      var (db, after) := Act(s.db, s.workers[worker], action);
      s.(db := db, workers := s.workers[worker := after])
    case Pop =>
      var (db, id) := PopStep(s.db);
      s.(db := db, popped := s.popped + multiset{id})
    case Judge(id) =>
      var keep := id in s.db.jobs && !s.db.jobs[id].state.Terminal();
      s.(popped := s.popped - multiset{id}, requeuing := s.requeuing + (if keep then multiset{id} else multiset{}))
    case Push(id) =>
      s.(db := PushStep(s.db, id), requeuing := s.requeuing - multiset{id})
  }

  /** A run: each step is enabled where it is taken. */
  ghost predicate IsRun(s: System, steps: seq<Step>)
    decreases |steps|
  {
    steps != [] ==> Enabled(s, steps[0]) && IsRun(Do(s, steps[0]), steps[1..])
  }

  ghost function After(s: System, steps: seq<Step>): System
    requires IsRun(s, steps)
    decreases |steps|
  {
    if steps == [] then s else After(Do(s, steps[0]), steps[1..])
  }
}
