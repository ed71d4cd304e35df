/** One runner process at a time: it recovers, then serves with a bounded number of workers, and may die
    at any moment except while an identifier is in its hand. The single session gives each job one writer. */
module JobSession {
  import opened Wrappers
  import opened JobTypes
  import opened JobScripts
  import opened JobInvariants
  import opened JobSystem
  import opened JobSafety
  import opened JobCreate
  import opened JobTransition
  import opened JobUnsubscribe
  import opened JobLogs

  const MAX_WORKER_CONCURRENCY := 8

  datatype Phase = Down | Recovering | Serving

  datatype Session = Session(sys: System, phase: Phase)

  datatype Move =
    | Client(step: Step)
    | Boot
    | Recover(step: Step)
    | Serve(concurrency: nat)
    | Worker(worker: nat, action: Action)
    | Die

  predicate Allowed(x: Session, move: Move) {
    match move
    case Client(step) =>
      (step.Create? || step.BeginLeave? || step.EndLeave?) && Enabled(x.sys, step)
    case Boot => x.phase.Down?
    case Recover(step) =>
      && x.phase.Recovering?
      && (step.Pop? || step.Judge? || step.Push?)
      && Enabled(x.sys, step)
      && (step.Pop? ==> NoHand(x.sys))
    case Serve(concurrency) =>
      && x.phase.Recovering?
      && x.sys.db.processing == []
      && NoHand(x.sys)
      && 1 <= concurrency <= MAX_WORKER_CONCURRENCY
    case Worker(worker, action) => x.phase.Serving? && Enabled(x.sys, Work(worker, action))
    case Die => NoHand(x.sys)
  }

  /** The workers a runner starts with. */
  function IdlePool(concurrency: nat): (pool: map<nat, JobSystem.Worker>)
    ensures forall w: nat :: w in pool <==> w < concurrency
    ensures forall w <- pool :: pool[w] == Idle
  {
    if concurrency == 0 then map[] else IdlePool(concurrency - 1)[concurrency - 1 := Idle]
  }

  predicate NoHand(s: System) {
    s.popped == multiset{} && s.requeuing == multiset{}
  }

  function Make(x: Session, move: Move): Session
    requires Allowed(x, move)
  {
    match move
    case Client(step) => x.(sys := Do(x.sys, step))
    case Boot => x.(phase := Recovering)
    case Recover(step) => x.(sys := Do(x.sys, step))
    case Serve(concurrency) =>
      Session(x.sys.(workers := IdlePool(concurrency)), Serving)
    case Worker(worker, action) => x.(sys := Do(x.sys, Work(worker, action)))
    case Die => Session(x.sys.(workers := map[]), Down)
  }

  // ----- who holds what -----

  function Token(worker: JobSystem.Worker): multiset<JobId> {
    match Held(worker)
    case None => multiset{}
    case Some(id) => multiset{id}
  }

  /** The identifiers held by the first n workers. */
  ghost function HeldBy(workers: map<nat, JobSystem.Worker>, n: nat): multiset<JobId> {
    if n == 0 then multiset{}
    else HeldBy(workers, n - 1) + TokenAt(workers, n - 1)
  }

  lemma {:induction false} HeldByIsFew(workers: map<nat, JobSystem.Worker>, n: nat)
    ensures |HeldBy(workers, n)| <= n
  {
    if n > 0 {
      HeldByIsFew(workers, n - 1);
    }
  }

  lemma {:induction false} HeldByIgnores(workers: map<nat, JobSystem.Worker>, w: nat, worker: JobSystem.Worker, n: nat)
    requires n <= w
    ensures HeldBy(workers[w := worker], n) == HeldBy(workers, n)
  {
    if n > 0 {
      HeldByIgnores(workers, w, worker, n - 1);
    }
  }

  ghost function TokenAt(workers: map<nat, JobSystem.Worker>, w: nat): multiset<JobId> {
    if w in workers then Token(workers[w]) else multiset{}
  }

  lemma HeldByLast(workers: map<nat, JobSystem.Worker>, n: nat, id: JobId)
    requires n > 0
    ensures HeldBy(workers, n)[id] == HeldBy(workers, n - 1)[id] + TokenAt(workers, n - 1)[id]
  {
  }

  /** One worker's change of hands is the only change of hands. */
  lemma {:induction false} HeldByChanges(
      workers: map<nat, JobSystem.Worker>, w: nat, worker: JobSystem.Worker, n: nat, id: JobId)
    requires w in workers && w < n
    ensures HeldBy(workers[w := worker], n)[id] + Token(workers[w])[id] == HeldBy(workers, n)[id] + Token(worker)[id]
  {
    hide Token, HeldBy;
    HeldByLast(workers, n, id);
    HeldByLast(workers[w := worker], n, id);
    if w == n - 1 {
      HeldByIgnores(workers, w, worker, n - 1);
    } else {
      HeldByChanges(workers, w, worker, n - 1, id);
    }
  }

  lemma {:induction false} HolderCounts(workers: map<nat, JobSystem.Worker>, w: nat, n: nat, id: JobId)
    requires w in workers && w < n
    ensures Token(workers[w])[id] <= HeldBy(workers, n)[id]
  {
    hide Token, HeldBy;
    HeldByLast(workers, n, id);
    if w < n - 1 {
      HolderCounts(workers, w, n - 1, id);
    }
  }

  lemma {:induction false} TwoHoldersCount(workers: map<nat, JobSystem.Worker>, v: nat, w: nat, n: nat, id: JobId)
    requires v in workers && w in workers && v < w < n
    ensures Token(workers[v])[id] + Token(workers[w])[id] <= HeldBy(workers, n)[id]
  {
    hide Token, HeldBy;
    HeldByLast(workers, n, id);
    if w < n - 1 {
      TwoHoldersCount(workers, v, w, n - 1, id);
    } else {
      HolderCounts(workers, v, n - 1, id);
    }
  }

  // ----- the invariant -----

  /** What a writer read is still the job's state, unless a client has ended the job since. */
  ghost predicate Fresh(jobs: Jobs, worker: JobSystem.Worker) {
    worker.Reporting? || worker.ForcingWrite? ==>
      worker.id in jobs && (jobs[worker.id].state == worker.seen.state || jobs[worker.id].state.Terminal())
  }

  ghost predicate AllFresh(jobs: Jobs, workers: map<nat, JobSystem.Worker>) {
    forall w <- workers :: Fresh(jobs, workers[w])
  }

  /** Where the identifiers are in each phase: outside serving nobody works; while serving, processing is
      exactly what the workers hold and no recovery is under way. */
  ghost predicate PhaseInv(x: Session) {
    && (forall w <- x.sys.workers :: w < MAX_WORKER_CONCURRENCY)
    && (x.phase.Serving? ==>
          && NoHand(x.sys)
          && multiset(x.sys.db.processing) == HeldBy(x.sys.workers, MAX_WORKER_CONCURRENCY))
    && (!x.phase.Serving? ==> x.sys.workers == map[])
    && (x.phase.Down? ==> NoHand(x.sys))
  }

  ghost function InFlight(s: System): nat {
    |s.db.processing| + |s.popped| + |s.requeuing|
  }

  ghost predicate Bounded(s: System) {
    && InFlight(s) <= 8
    && |s.db.queue| + InFlight(s) <= s.maxQueued + 8
  }

  ghost predicate SessionInv(x: Session) {
    SystemInv(x.sys) && PhaseInv(x) && Bounded(x.sys) && AllFresh(x.sys.db.jobs, x.sys.workers) && LogsFollow(x.sys.db)
  }

  // ----- clients -----

  lemma ClientsKeepLogs(before: Db, after: Db, workers: map<nat, JobSystem.Worker>)
    requires DbInv(before)
    requires ClientMoves(before, after)
    requires LogsFollow(before) && AllFresh(before.jobs, workers)
    requires forall id <- after.jobs :: id !in before.jobs ==> FollowsTable(LogOf(after.events, id))
    ensures LogsFollow(after) && AllFresh(after.jobs, workers)
  {
    hide CoalesceExact, SubscriptionsExact, CountsExact, LogMoves, FollowsTable, LogTrue;
    forall id <- after.jobs
      ensures FollowsTable(LogOf(after.events, id))
    {
      if id in before.jobs {
        assert ClientMove(before, after, id);
        TransitionTable(before.jobs[id].state, after.jobs[id].state);
        FactsOf(before, id);
        MoveFollows(before, after, id);
      }
    }
    forall w <- workers
      ensures Fresh(after.jobs, workers[w])
    {
      assert Fresh(before.jobs, workers[w]);
      if workers[w].Reporting? || workers[w].ForcingWrite? {
        assert ClientMove(before, after, workers[w].id);
      }
    }
  }

  lemma NewLogsFollow(db: Db, request: CreateRequest, draw: Draw, maxQueued: int)
    requires DbInv(db)
    ensures var after := CreateOrJoinScript(db, request, draw, maxQueued).db;
            forall id <- after.jobs :: id !in db.jobs ==> FollowsTable(LogOf(after.events, id))
  {
    hide CoalesceExact, SubscriptionsExact, CountsExact, LogsTrue, CancelFlagsSound;
    LookupsExact(db, request);
  }

  lemma CreateKeepsBounds(x: Session, request: CreateRequest, draw: Draw)
    requires SessionInv(x)
    requires Allowed(x, Client(Create(request, draw)))
    ensures var after := Make(x, Client(Create(request, draw)));
            PhaseInv(after) && Bounded(after.sys)
  {
    hide HeldBy, SystemInv, AllFresh, LogsFollow, CreateOrJoinScript;
    CreateOrJoinAddsOnlyCreated(x.sys.db, request, draw, x.sys.maxQueued);
    OnlyCreatedWhenRoom(x.sys.db, request, draw, x.sys.maxQueued);
  }

  lemma CreateSession(x: Session, request: CreateRequest, draw: Draw)
    requires SessionInv(x)
    requires Allowed(x, Client(Create(request, draw)))
    ensures SessionInv(Make(x, Client(Create(request, draw))))
  {
    hide SystemInv, AllFresh, LogsFollow, ClientMoves, CreateOrJoinScript, PhaseInv, Bounded, DbInv, WorkersSound, Conserved;
    SystemParts(x.sys);
    StepKeeps(x.sys, Create(request, draw));
    CreateKeepsBounds(x, request, draw);
    CreateOrJoinMoves(x.sys.db, request, draw, x.sys.maxQueued);
    NewLogsFollow(x.sys.db, request, draw, x.sys.maxQueued);
    ClientsKeepLogs(x.sys.db, Do(x.sys, Create(request, draw)).db, x.sys.workers);
  }

  lemma OnlyCreatedWhenRoom(db: Db, request: CreateRequest, draw: Draw, maxQueued: int)
    ensures CreateOrJoinScript(db, request, draw, maxQueued).outcome == Created ==> |db.queue| < maxQueued
  {
    hide AppendEvent;
  }

  lemma SystemParts(s: System)
    requires SystemInv(s)
    ensures DbInv(s.db)
    ensures Conserved(s.db.jobs, Tokens(s))
    ensures WorkersSound(s.db.jobs, s.workers)
  {
  }

  lemma LeaveSession(x: Session, leave: Leave, eventId: string, now: int)
    requires SessionInv(x)
    requires Allowed(x, Client(EndLeave(leave, eventId, now)))
    ensures SessionInv(Make(x, Client(EndLeave(leave, eventId, now))))
  {
    hide HeldBy, SystemInv, AllFresh, LogsFollow, ClientMoves, DbInv, Conserved, WorkersSound, UnsubscribeScript;
    SystemParts(x.sys);
    StepKeeps(x.sys, EndLeave(leave, eventId, now));
    UnsubscribeKeys(x.sys.db, leave, eventId, now);
    UnsubscribeMoves(x.sys.db, leave, eventId, now);
    ClientsKeepLogs(x.sys.db, Do(x.sys, EndLeave(leave, eventId, now)).db, x.sys.workers);
  }

  // ----- recovery -----

  /** A step of recovery never adds an identifier, and touches nothing else. */
  lemma RecoverAddsNothing(s: System, step: Step)
    requires step.Pop? || step.Judge? || step.Push?
    requires Enabled(s, step)
    ensures var after := Do(s, step);
            && InFlight(after) <= InFlight(s)
            && |after.db.queue| + InFlight(after) <= |s.db.queue| + InFlight(s)
            && after == s.(db := s.db.(queue := after.db.queue, processing := after.db.processing),
                           popped := after.popped, requeuing := after.requeuing)
  {
    match step
    case Pop =>
    case Judge(id) =>
      assert |s.popped - multiset{id}| == |s.popped| - 1;
    case Push(id) =>
      assert |s.requeuing - multiset{id}| == |s.requeuing| - 1;
  }

  lemma RecoverSession(x: Session, step: Step)
    requires SessionInv(x)
    requires Allowed(x, Recover(step))
    ensures SessionInv(Make(x, Recover(step)))
  {
    hide SystemInv, LogsFollow, Enabled, Do, HeldBy, InFlight, AllFresh;
    StepKeeps(x.sys, step);
    RecoverAddsNothing(x.sys, step);
    LogsFollowSame(x.sys.db, Do(x.sys, step).db);
  }

  lemma LogsFollowSame(before: Db, after: Db)
    requires LogsFollow(before)
    requires after.jobs == before.jobs && after.events == before.events
    ensures LogsFollow(after)
  {
  }

  lemma {:induction false} NobodyHolds(workers: map<nat, JobSystem.Worker>, n: nat)
    requires forall w <- workers :: workers[w] == Idle
    ensures HeldBy(workers, n) == multiset{}
  {
    if n > 0 {
      NobodyHolds(workers, n - 1);
    }
  }

  /** Starting to serve and dying replace the workers and nothing else. */
  lemma ReplaceWorkers(x: Session, workers: map<nat, JobSystem.Worker>, phase: Phase)
    requires SessionInv(x)
    requires forall w <- workers :: workers[w] == Idle
    requires NoHand(x.sys)
    requires forall w <- workers :: w < MAX_WORKER_CONCURRENCY
    requires phase.Serving? ==> x.sys.db.processing == []
    requires !phase.Serving? ==> workers == map[]
    ensures SessionInv(Session(x.sys.(workers := workers), phase))
  {
    hide DbInv, LogsFollow, Conserved, HeldBy, LeavingSound;
    NobodyHolds(workers, MAX_WORKER_CONCURRENCY);
    var after := x.sys.(workers := workers);
    assert Tokens(after) == Tokens(x.sys);
  }

  // ----- workers -----

  lemma ReadOnlyHolds(db: Db, worker: JobSystem.Worker, action: Action)
    requires CanAct(db, worker, action) && ReadOnly(action)
    ensures Act(db, worker, action).0 == db
    ensures Held(Act(db, worker, action).1) == Held(worker)
  {
  }

  ghost predicate MovesTokens(db: Db, worker: JobSystem.Worker, after: Db, moved: JobSystem.Worker) {
    && (forall id :: multiset(after.processing)[id] + Token(worker)[id]
                     == multiset(db.processing)[id] + Token(moved)[id])
    && |after.queue| + |after.processing| <= |db.queue| + |db.processing|
  }

  lemma ClaimMovesTokens(db: Db)
    requires db.queue != []
    ensures MovesTokens(db, Idle, ClaimStep(db).0, Claimed(ClaimStep(db).1))
  {
  }

  lemma AckMovesTokens(db: Db, id: JobId)
    requires id in db.processing
    ensures MovesTokens(db, Acking(id), AckStep(db, id), Idle)
  {
    hide RemoveFirst;
    RemoveFirstTakesOne(db.processing, id);
  }

  lemma SameLists(db: Db, worker: JobSystem.Worker, after: Db, moved: JobSystem.Worker)
    requires after.queue == db.queue && after.processing == db.processing
    requires Held(worker) == Held(moved)
    ensures MovesTokens(db, worker, after, moved)
  {
  }

  /** An action changes what a worker holds only by claiming or acknowledging. */
  lemma ActMovesTokens(db: Db, worker: JobSystem.Worker, action: Action)
    requires CanAct(db, worker, action)
    requires forall id :: Token(worker)[id] <= multiset(db.processing)[id]
    ensures MovesTokens(db, worker, Act(db, worker, action).0, Act(db, worker, action).1)
  {
    hide TransitionScript, AckStep, ClaimStep, MovesTokens;
    var (after, moved) := Act(db, worker, action);
    match action
    case Claim =>
      ClaimMovesTokens(db);
    case Ack =>
      assert Token(worker)[worker.id] == 1;
      AckMovesTokens(db, worker.id);
    case EndReport(report) =>
      ListsAfterWrite(db, ReportedWrite(worker.id, worker.seen, worker.next, report));
      SameLists(db, worker, after, moved);
    case EndForce(eventId, now) =>
      ListsAfterWrite(db, ForcedWrite(worker.id, worker.ending, worker.seen, eventId, now));
      SameLists(db, worker, after, moved);
    case _ =>
      ReadOnlyHolds(db, worker, action);
      SameLists(db, worker, after, moved);
  }

  lemma ListsAfterWrite(db: Db, write: Write)
    ensures var after := TransitionScript(db, write).db;
            after.queue == db.queue && after.processing == db.processing
  {
  }

  lemma WorkerKeepsPhase(x: Session, w: nat, action: Action)
    requires SessionInv(x)
    requires Allowed(x, Worker(w, action))
    ensures PhaseInv(Make(x, Worker(w, action)))
    ensures Bounded(Make(x, Worker(w, action)).sys)
  {
    hide SystemInv, LogsFollow, AllFresh, Act, CanAct, HeldBy, Token;
    var worker := x.sys.workers[w];
    forall id
      ensures Token(worker)[id] <= multiset(x.sys.db.processing)[id]
    {
      HolderCounts(x.sys.workers, w, MAX_WORKER_CONCURRENCY, id);
    }
    ActMovesTokens(x.sys.db, worker, action);
    var (db, moved) := Act(x.sys.db, worker, action);
    var workers := x.sys.workers[w := moved];
    forall id
      ensures multiset(db.processing)[id] == HeldBy(workers, MAX_WORKER_CONCURRENCY)[id]
    {
      HeldByChanges(x.sys.workers, w, moved, MAX_WORKER_CONCURRENCY, id);
    }
    assert multiset(db.processing) == HeldBy(workers, MAX_WORKER_CONCURRENCY);
    HeldByIsFew(workers, MAX_WORKER_CONCURRENCY);
    assert |multiset(db.processing)| == |db.processing|;
  }

  /** No two workers of the session hold the same job. */
  lemma HoldersDiffer(x: Session, v: nat, w: nat)
    requires SystemInv(x.sys) && PhaseInv(x)
    requires v in x.sys.workers && w in x.sys.workers && v != w
    requires Held(x.sys.workers[v]).Some?
    ensures Held(x.sys.workers[v]) != Held(x.sys.workers[w])
  {
    hide HeldBy, DbInv, WorkersSound, LeavingSound;
    var id := Held(x.sys.workers[v]).value;
    TwoHoldersCount(x.sys.workers, if v < w then v else w, if v < w then w else v, MAX_WORKER_CONCURRENCY, id);
    assert Tokens(x.sys)[id] <= 1 by {
      assert id in Tokens(x.sys) ==> Tokens(x.sys)[id] == 1;
    }
    assert multiset(x.sys.db.processing)[id] <= Tokens(x.sys)[id];
  }

  /** The write of the only writer of a job follows the table. */
  lemma SoleWriterFollows(x: Session, w: nat, write: Write)
    requires SessionInv(x)
    requires w in x.sys.workers
    requires x.sys.workers[w].Reporting? || x.sys.workers[w].ForcingWrite?
    requires write.id == x.sys.workers[w].id
    requires x.sys.workers[w].Reporting? ==> write.state == x.sys.workers[w].next
    requires x.sys.workers[w].ForcingWrite? ==> write.state == Failed
    ensures var after := TransitionScript(x.sys.db, write).db;
            && LogsFollow(after)
            && (forall v <- x.sys.workers :: v != w ==> Fresh(after.jobs, x.sys.workers[v]))
  {
    hide CoalesceExact, SubscriptionsExact, CountsExact, LogTrue, LogMoves, FollowsTable, PhaseInv, Bounded,
      Conserved, TransitionScript;
    var before, after := x.sys.db, TransitionScript(x.sys.db, write).db;
    var worker := x.sys.workers[w];
    SoundAt(before.jobs, x.sys.workers, w);
    assert Fresh(before.jobs, worker);
    TransitionScriptKeys(before, write);
    forall id <- after.jobs
      ensures FollowsTable(LogOf(after.events, id))
    {
      FactsOf(before, id);
      TransitionMoves(before, write, id);
      TransitionTable(before.jobs[id].state, write.state);
      MoveFollows(before, after, id);
    }
    forall v <- x.sys.workers | v != w
      ensures Fresh(after.jobs, x.sys.workers[v])
    {
      assert Fresh(before.jobs, x.sys.workers[v]);
      HoldersDiffer(x, w, v);
      if x.sys.workers[v].Reporting? || x.sys.workers[v].ForcingWrite? {
        TransitionMoves(before, write, x.sys.workers[v].id);
      }
    }
  }

  lemma WorkerKeepsLogs(x: Session, w: nat, action: Action)
    requires SessionInv(x)
    requires Allowed(x, Worker(w, action))
    ensures var after := Make(x, Worker(w, action)).sys;
            LogsFollow(after.db) && AllFresh(after.db.jobs, after.workers)
  {
    hide DbInv, SystemInv, PhaseInv, Bounded, TransitionScript, LogsFollow;
    var worker := x.sys.workers[w];
    match action
    case EndReport(report) =>
      SoleWriterFollows(x, w, ReportedWrite(worker.id, worker.seen, worker.next, report));
    case EndForce(eventId, now) =>
      SoleWriterFollows(x, w, ForcedWrite(worker.id, worker.ending, worker.seen, eventId, now));
    case _ =>
      var (db, moved) := Act(x.sys.db, worker, action);
      assert db.jobs == x.sys.db.jobs && db.events == x.sys.db.events;
      LogsFollowSame(x.sys.db, db);
      assert Fresh(db.jobs, moved);
  }

  // ----- every move, every run -----

  lemma MoveKeeps(x: Session, move: Move)
    requires SessionInv(x)
    requires Allowed(x, move)
    ensures SessionInv(Make(x, move))
  {
    hide SystemInv, PhaseInv, Bounded, AllFresh, LogsFollow, Enabled, Do;
    match move
    case Client(step) =>
      if step.Create? {
        CreateSession(x, step.request, step.draw);
      } else if step.EndLeave? {
        LeaveSession(x, step.leave, step.eventId, step.now);
      } else {
        BeginLeaveSession(x, step);
      }
    case Boot => BootSession(x);
    case Recover(step) => RecoverSession(x, step);
    case Serve(concurrency) => ReplaceWorkers(x, IdlePool(concurrency), Serving);
    case Worker(w, action) =>
      StepKeeps(x.sys, Work(w, action));
      WorkerKeepsPhase(x, w, action);
      WorkerKeepsLogs(x, w, action);
    case Die => ReplaceWorkers(x, map[], Down);
  }

  lemma BeginLeaveSession(x: Session, step: Step)
    requires SessionInv(x)
    requires step.BeginLeave? && Allowed(x, Client(step))
    ensures SessionInv(Make(x, Client(step)))
  {
    hide SystemInv, AllFresh, LogsFollow;
    StepKeeps(x.sys, step);
  }

  lemma BootSession(x: Session)
    requires SessionInv(x) && x.phase.Down?
    ensures SessionInv(x.(phase := Recovering))
  {
    hide SystemInv, AllFresh, LogsFollow;
  }

  ghost predicate IsSession(x: Session, moves: seq<Move>)
    decreases |moves|
  {
    moves != [] ==> Allowed(x, moves[0]) && IsSession(Make(x, moves[0]), moves[1..])
  }

  ghost function Following(x: Session, moves: seq<Move>): Session
    requires IsSession(x, moves)
    decreases |moves|
  {
    if moves == [] then x else Following(Make(x, moves[0]), moves[1..])
  }

  lemma {:induction false} SessionKeeps(x: Session, moves: seq<Move>)
    requires SessionInv(x)
    requires IsSession(x, moves)
    ensures SessionInv(Following(x, moves))
    decreases |moves|
  {
    hide SessionInv, Allowed, Make;
    if moves != [] {
      MoveKeeps(x, moves[0]);
      SessionKeeps(Make(x, moves[0]), moves[1..]);
    }
  }

  /** A queue that began empty and has been served by one process at a time. */
  ghost predicate Served(x: Session) {
    exists moves ::
      var start := Session(Initial(x.sys.maxQueued), Down);
      IsSession(start, moves) && Following(start, moves) == x
  }

  lemma ServedInv(x: Session)
    requires Served(x)
    requires x.sys.maxQueued >= 0
    ensures SessionInv(x)
  {
    hide SessionInv, IsSession, Following;
    var start := Session(Initial(x.sys.maxQueued), Down);
    var moves :| IsSession(start, moves) && Following(start, moves) == x;
    StartHolds(x.sys.maxQueued);
    SessionKeeps(start, moves);
  }

  lemma StartHolds(maxQueued: int)
    requires maxQueued >= 0
    ensures SessionInv(Session(Initial(maxQueued), Down))
  {
    hide SystemInv;
    InitialHolds(maxQueued);
  }

  /** With one process at a time: no job is held by two workers, no more than eight jobs are in flight, and
      the queue and the jobs in flight together never exceed the limit by more than eight, although
      recovery puts jobs back without looking at the limit. */
  lemma SessionBounds(x: Session)
    requires Served(x)
    requires x.sys.maxQueued >= 0
    ensures InFlight(x.sys) <= 8
    ensures |x.sys.db.queue| + InFlight(x.sys) <= x.sys.maxQueued + 8
    ensures forall v, w :: v in x.sys.workers && w in x.sys.workers && v != w && Held(x.sys.workers[v]).Some? ==>
              Held(x.sys.workers[v]) != Held(x.sys.workers[w])
  {
    hide SystemInv, PhaseInv, AllFresh, LogsFollow, Served;
    ServedInv(x);
    forall v, w | v in x.sys.workers && w in x.sys.workers && v != w && Held(x.sys.workers[v]).Some?
      ensures Held(x.sys.workers[v]) != Held(x.sys.workers[w])
    {
      HoldersDiffer(x, v, w);
    }
  }

  /** With one process at a time every job's log follows the transition table from the moment it is queued,
      over any number of crashes and redeliveries, so a job changes state at most six times. */
  lemma SessionLogs(x: Session, id: JobId)
    requires Served(x)
    requires x.sys.maxQueued >= 0
    requires id in x.sys.db.jobs
    ensures FollowsTable(LogOf(x.sys.db.events, id))
    ensures StateChanges(LogOf(x.sys.db.events, id)) <= Rank(x.sys.db.jobs[id].state) <= 6
  {
    hide PhaseInv, Bounded, AllFresh, Served, FollowsTable, Conserved, WorkersSound, LeavingSound;
    ServedInv(x);
    FactsOf(x.sys.db, id);
    ChangesAreBounded(LogOf(x.sys.db.events, id));
  }
}
