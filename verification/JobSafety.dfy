/** Safety of the queue under every interleaving: no job is lost or doubled, whoever races. */
module JobSafety {
  import opened Wrappers
  import opened JobTypes
  import opened JobScripts
  import opened JobInvariants
  import opened JobCreate
  import opened JobUnsubscribe
  import opened JobTransition
  import opened JobSystem

  /** Every place an identifier can be on its way through the queue. */
  ghost function Tokens(s: System): multiset<JobId> {
    multiset(s.db.queue) + multiset(s.db.processing) + s.popped + s.requeuing
  }

  /** No identifier is in two places, none is unknown, and every live job is in exactly one. */
  ghost predicate Conserved(jobs: Jobs, tokens: multiset<JobId>) {
    && (forall id <- tokens :: tokens[id] == 1 && id in jobs)
    && (forall id <- jobs :: !jobs[id].state.Terminal() ==> id in tokens)
  }

  ghost predicate Ended(jobs: Jobs, id: JobId) {
    id in jobs && jobs[id].state.Terminal()
  }

  /** What a worker relies on: its job exists, what it read still names the job, and it has been told
      "cancelled" or is about to acknowledge only when the job has ended. */
  ghost predicate WorkerSound(jobs: Jobs, worker: Worker) {
    match worker
    case Idle => true
    case Stopped(_) => true
    case Executing(id, told) => id in jobs && (told ==> Ended(jobs, id))
    case Reporting(id, told, seen, next) =>
      && id in jobs
      && (told ==> Ended(jobs, id))
      && jobs[id].fingerprint == seen.fingerprint
      && AllowedTransition(seen.state, next)
    case ForcingWrite(id, _, seen) => id in jobs && jobs[id].fingerprint == seen.fingerprint
    case Acking(id) => Ended(jobs, id)
    case _ => worker.id in jobs
  }

  ghost predicate WorkersSound(jobs: Jobs, workers: map<nat, Worker>) {
    forall w <- workers :: WorkerSound(jobs, workers[w])
  }

  ghost predicate LeavingSound(db: Db, leaving: multiset<Leave>) {
    forall leave <- leaving :: LeaveKnown(db, leave)
  }

  ghost predicate SystemInv(s: System) {
    && DbInv(s.db)
    && Conserved(s.db.jobs, Tokens(s))
    && WorkersSound(s.db.jobs, s.workers)
    && LeavingSound(s.db, s.leaving)
  }

  // ----- steps of the store seen from outside -----

  /** The jobs of a later store: nothing is undone and no live job appears. */
  ghost predicate NoNewLife(before: Db, after: Db) {
    JobsKept(before, after) && after.jobs.Keys == before.jobs.Keys
  }

  lemma ConservedStays(before: Db, after: Db, tokens: multiset<JobId>)
    requires NoNewLife(before, after)
    requires Conserved(before.jobs, tokens)
    ensures Conserved(after.jobs, tokens)
  {
  }

  lemma ConservedGrows(before: Db, after: Db, tokens: multiset<JobId>, id: JobId)
    requires JobsKept(before, after) && after.jobs.Keys == before.jobs.Keys + {id}
    requires id !in before.jobs
    requires Conserved(before.jobs, tokens)
    ensures Conserved(after.jobs, tokens + multiset{id})
  {
  }

  lemma WorkerStaysSound(before: Db, after: Db, worker: Worker)
    requires JobsKept(before, after)
    requires WorkerSound(before.jobs, worker)
    ensures WorkerSound(after.jobs, worker)
  {
  }

  lemma OthersStaySound(before: Db, after: Db, workers: map<nat, Worker>, leaving: multiset<Leave>)
    requires JobsKept(before, after)
    requires WorkersSound(before.jobs, workers)
    requires LeavingSound(before, leaving)
    ensures WorkersSound(after.jobs, workers)
    ensures LeavingSound(after, leaving)
  {
    forall w <- workers
      ensures WorkerSound(after.jobs, workers[w])
    {
      WorkerStaysSound(before, after, workers[w]);
    }
  }

  lemma JobsKeptRefl(db: Db)
    ensures JobsKept(db, db)
  {
  }

  /** The two lists are no part of the store's invariant. */
  lemma ListsDoNotMatter(db: Db, queue: seq<JobId>, processing: seq<JobId>)
    requires DbInv(db)
    ensures DbInv(db.(queue := queue, processing := processing))
    ensures JobsKept(db, db.(queue := queue, processing := processing))
  {
  }

  lemma {:induction false} RemoveFirstTakesOne(list: seq<JobId>, id: JobId)
    ensures multiset(RemoveFirst(list, id)) == multiset(list) - multiset{id}
    ensures |RemoveFirst(list, id)| == if id in list then |list| - 1 else |list|
  {
    if list != [] {
      assert list == [list[0]] + list[1..];
      RemoveFirstTakesOne(list[1..], id);
    }
  }

  /** Removing a job that has ended loses no live job. */
  lemma ConservedWithout(jobs: Jobs, tokens: multiset<JobId>, id: JobId)
    requires Conserved(jobs, tokens)
    requires Ended(jobs, id)
    ensures Conserved(jobs, tokens - multiset{id})
  {
  }

  // ----- one worker's action -----

  /** The two actions of a worker that write: whatever it read, the script keeps every promise. */
  lemma WriteKeeps(db: Db, write: Write)
    requires DbInv(db)
    requires WriteKnown(db, write)
    ensures var reply := TransitionScript(db, write);
            && DbInv(reply.db)
            && NoNewLife(db, reply.db)
            && reply.db.queue == db.queue && reply.db.processing == db.processing
            && (reply.outcome.AlreadyCancelled? ==> Ended(reply.db.jobs, write.id))
            && (reply.outcome.Moved? ==> reply.db.jobs[write.id].state == write.state)
  {
    hide DbInv, JobsKept;
    TransitionKeeps(db, write);
    TransitionMeans(db, write);
    assert write.id in TransitionScript(db, write).db.jobs by { hide *; TransitionScriptKeys(db, write); }
    TransitionScriptKeys(db, write);
  }

  lemma TransitionScriptKeys(db: Db, write: Write)
    requires write.id in db.jobs
    ensures TransitionScript(db, write).db.jobs.Keys == db.jobs.Keys
    ensures write.id in TransitionScript(db, write).db.jobs
  {
  }

  /** An action that neither writes nor moves an identifier leaves the store alone. */
  predicate ReadOnly(action: Action) {
    !action.Claim? && !action.EndReport? && !action.EndForce? && !action.Ack?
  }

  lemma ReadKeeps(db: Db, worker: Worker, action: Action)
    requires DbInv(db)
    requires WorkerSound(db.jobs, worker)
    requires CanAct(db, worker, action) && ReadOnly(action)
    ensures Act(db, worker, action).0 == db
    ensures WorkerSound(db.jobs, Act(db, worker, action).1)
  {
    hide CoalesceExact, SubscriptionsExact, CountsExact, LogsTrue;
  }

  /** One worker and the store move on; everyone else only sees the store. */
  lemma OneWorkerMoves(s: System, w: nat, db: Db, worker: Worker)
    requires SystemInv(s)
    requires DbInv(db) && JobsKept(s.db, db)
    requires WorkerSound(db.jobs, worker)
    requires Conserved(db.jobs, Tokens(s.(db := db)))
    ensures SystemInv(s.(db := db, workers := s.workers[w := worker]))
  {
    hide DbInv, JobsKept, LeavingSound, Conserved, WorkerSound;
    OthersStaySound(s.db, db, s.workers, s.leaving);
    assert Tokens(s.(db := db)) == Tokens(s.(db := db, workers := s.workers[w := worker]));
  }

  lemma ClaimKeeps(s: System, w: nat)
    requires SystemInv(s)
    requires Enabled(s, Work(w, Claim))
    ensures SystemInv(Do(s, Work(w, Claim)))
    ensures JobsKept(s.db, Do(s, Work(w, Claim)).db)
  {
    hide DbInv, JobsKept, WorkersSound, LeavingSound, Conserved;
    var (db, id) := ClaimStep(s.db);
    assert s.db.queue == s.db.queue[..|s.db.queue| - 1] + [id];
    ListsDoNotMatter(s.db, db.queue, db.processing);
    assert Tokens(s.(db := db)) == Tokens(s);
    InTokens(s.db.jobs, Tokens(s), id);
    OneWorkerMoves(s, w, db, Claimed(id));
  }

  lemma AckKeeps(s: System, w: nat)
    requires SystemInv(s)
    requires Enabled(s, Work(w, Ack))
    ensures SystemInv(Do(s, Work(w, Ack)))
    ensures JobsKept(s.db, Do(s, Work(w, Ack)).db)
  {
    hide DbInv, JobsKept, WorkersSound, LeavingSound, Conserved, RemoveFirst;
    SoundAt(s.db.jobs, s.workers, w);
    var id := s.workers[w].id;
    var db := AckStep(s.db, id);
    ListsDoNotMatter(s.db, db.queue, db.processing);
    AckConserves(s, id, s.(db := db));
    OneWorkerMoves(s, w, db, Idle);
  }

  /** A worker writes what it read leave to write, whatever has happened since, and then knows the outcome. */
  lemma WriterKeeps(s: System, w: nat, write: Write, worker: Worker)
    requires SystemInv(s)
    requires WriteKnown(s.db, write)
    requires var reply := TransitionScript(s.db, write);
             || (worker == Executing(write.id, true) && reply.outcome.AlreadyCancelled?)
             || (worker == Executing(write.id, true) && Ended(s.db.jobs, write.id))
             || worker == Executing(write.id, false)
             || (worker == Acking(write.id) && reply.outcome.Moved? && write.state.Terminal())
             || worker == Stopped(Some(write.id))
    ensures var db := TransitionScript(s.db, write).db;
            SystemInv(s.(db := db, workers := s.workers[w := worker])) && JobsKept(s.db, db)
  {
    hide DbInv, JobsKept, WorkersSound, LeavingSound, Conserved, TransitionScript;
    var db := TransitionScript(s.db, write).db;
    WriteKeeps(s.db, write);
    ConservedStays(s.db, db, Tokens(s));
    assert Tokens(s.(db := db)) == Tokens(s);
    if Ended(s.db.jobs, write.id) {
      EndedStays(s.db, db, write.id);
    }
    OneWorkerMoves(s, w, db, worker);
  }

  lemma EndedStays(before: Db, after: Db, id: JobId)
    requires JobsKept(before, after)
    requires Ended(before.jobs, id)
    ensures Ended(after.jobs, id)
  {
  }

  lemma WorkKeeps(s: System, w: nat, action: Action)
    requires SystemInv(s)
    requires Enabled(s, Work(w, action))
    ensures SystemInv(Do(s, Work(w, action)))
    ensures JobsKept(s.db, Do(s, Work(w, action)).db)
  {
    hide DbInv, JobsKept, WorkersSound, LeavingSound, Conserved, TransitionScript, TransitionMeaning;
    SoundAt(s.db.jobs, s.workers, w);
    var worker := s.workers[w];
    match action
    case Claim => ClaimKeeps(s, w);
    case Ack => AckKeeps(s, w);
    case EndReport(report) =>
      var write := ReportedWrite(worker.id, worker.seen, worker.next, report);
      WriterKeeps(s, w, write, Act(s.db, worker, action).1);
    case EndForce(eventId, now) =>
      var write := ForcedWrite(worker.id, worker.ending, worker.seen, eventId, now);
      WriterKeeps(s, w, write, Act(s.db, worker, action).1);
    case _ =>
      ReadKeeps(s.db, worker, action);
      JobsKeptRefl(s.db);
      assert s.(db := s.db) == s;
      OneWorkerMoves(s, w, s.db, Act(s.db, worker, action).1);
  }

  lemma SoundAt(jobs: Jobs, workers: map<nat, Worker>, w: nat)
    requires WorkersSound(jobs, workers) && w in workers
    ensures WorkerSound(jobs, workers[w])
  {
  }

  lemma InTokens(jobs: Jobs, tokens: multiset<JobId>, id: JobId)
    requires Conserved(jobs, tokens)
    requires id in tokens
    ensures id in jobs
  {
  }

  /** Acknowledging takes the identifier out of processing, if it is there, and only a job that has ended
      is ever acknowledged. */
  lemma AckConserves(s: System, id: JobId, after: System)
    requires Conserved(s.db.jobs, Tokens(s))
    requires Ended(s.db.jobs, id)
    requires after.db == AckStep(s.db, id)
    requires after.popped == s.popped && after.requeuing == s.requeuing
    ensures Conserved(after.db.jobs, Tokens(after))
  {
    RemoveFirstTakesOne(s.db.processing, id);
    if id in s.db.processing {
      assert Tokens(after) == Tokens(s) - multiset{id};
      ConservedWithout(s.db.jobs, Tokens(s), id);
    } else {
      assert multiset(s.db.processing)[id] == 0;
      assert Tokens(after) == Tokens(s);
    }
  }

  // ----- every step -----

  lemma CreateKeeps(s: System, request: CreateRequest, draw: Draw)
    requires SystemInv(s)
    requires Enabled(s, Create(request, draw))
    ensures SystemInv(Do(s, Create(request, draw)))
    ensures JobsKept(s.db, Do(s, Create(request, draw)).db)
  {
    hide DbInv, JobsKept, WorkersSound, LeavingSound, Conserved;
    var reply := CreateOrJoinScript(s.db, request, draw, s.maxQueued);
    var after := Do(s, Create(request, draw));
    CreateOrJoinKeeps(s.db, request, draw, s.maxQueued);
    OthersStaySound(s.db, after.db, s.workers, s.leaving);
    CreateOrJoinAddsOnlyCreated(s.db, request, draw, s.maxQueued);
    if reply.outcome == Created {
      assert Tokens(after) == Tokens(s) + multiset{draw.jobId};
      ConservedGrows(s.db, after.db, Tokens(s), draw.jobId);
    } else {
      ConservedStays(s.db, after.db, Tokens(s));
    }
  }

  /** Only a created job adds an identifier, to the jobs and to the end of the queue. */
  ghost predicate AddsOnlyCreated(db: Db, draw: Draw, reply: CreateReply) {
    && reply.db.jobs.Keys == db.jobs.Keys + (if reply.outcome == Created then {draw.jobId} else {})
    && reply.db.queue == db.queue + (if reply.outcome == Created then [draw.jobId] else [])
    && reply.db.processing == db.processing
  }

  lemma JoinAddsNothing(db: Db, request: CreateRequest, existing: JobId, draw: Draw)
    requires existing in db.jobs
    ensures AddsOnlyCreated(db, draw, JoinScript(db, request, existing, draw))
  {
    var reply := JoinScript(db, request, existing, draw);
    assert reply.db.jobs.Keys == db.jobs.Keys;
  }

  lemma CreateAddsOne(db: Db, request: CreateRequest, draw: Draw, maxQueued: int)
    ensures AddsOnlyCreated(db, draw, CreateScript(db, request, draw, maxQueued))
  {
  }

  lemma CreateOrJoinAddsOnlyCreated(db: Db, request: CreateRequest, draw: Draw, maxQueued: int)
    ensures AddsOnlyCreated(db, draw, CreateOrJoinScript(db, request, draw, maxQueued))
  {
    hide JoinScript, CreateScript;
    CreateAddsOne(db, request, draw, maxQueued);
    if request.fingerprint in db.coalesce {
      var existing := db.coalesce[request.fingerprint];
      CreateAddsOne(db.(coalesce := db.coalesce - {request.fingerprint}), request, draw, maxQueued);
      if existing in db.jobs {
        JoinAddsNothing(db, request, existing, draw);
      }
    }
  }

  lemma LeaveKeeps(s: System, leave: Leave, eventId: string, now: int)
    requires SystemInv(s)
    requires Enabled(s, EndLeave(leave, eventId, now))
    ensures SystemInv(Do(s, EndLeave(leave, eventId, now)))
    ensures JobsKept(s.db, Do(s, EndLeave(leave, eventId, now)).db)
  {
    hide DbInv, JobsKept, WorkersSound, Conserved;
    var after := Do(s, EndLeave(leave, eventId, now));
    assert LeaveKnown(s.db, leave);
    UnsubscribeKeeps(s.db, leave, eventId, now);
    OthersStaySound(s.db, after.db, s.workers, s.leaving);
    UnsubscribeKeys(s.db, leave, eventId, now);
    ConservedStays(s.db, after.db, Tokens(s));
  }

  lemma UnsubscribeKeys(db: Db, leave: Leave, eventId: string, now: int)
    ensures var reply := UnsubscribeScript(db, leave, eventId, now);
            reply.db.jobs.Keys == db.jobs.Keys && reply.db.queue == db.queue && reply.db.processing == db.processing
  {
  }

  lemma PopKeeps(s: System)
    requires SystemInv(s)
    requires Enabled(s, Pop)
    ensures SystemInv(Do(s, Pop))
    ensures JobsKept(s.db, Do(s, Pop).db)
  {
    hide DbInv, JobsKept, WorkersSound, LeavingSound, Conserved;
    var after := Do(s, Pop);
    var last := |s.db.processing| - 1;
    assert s.db.processing == s.db.processing[..last] + [s.db.processing[last]];
    assert Tokens(after) == Tokens(s);
    ListsDoNotMatter(s.db, after.db.queue, after.db.processing);
    OthersStaySound(s.db, after.db, s.workers, s.leaving);
  }

  lemma JudgeKeeps(s: System, id: JobId)
    requires SystemInv(s)
    requires Enabled(s, Judge(id))
    ensures SystemInv(Do(s, Judge(id)))
    ensures JobsKept(s.db, Do(s, Judge(id)).db)
  {
    hide DbInv, JobsKept, WorkersSound, LeavingSound, Conserved;
    var after := Do(s, Judge(id));
    JobsKeptRefl(s.db);
    assert id in Tokens(s);
    InTokens(s.db.jobs, Tokens(s), id);
    if s.db.jobs[id].state.Terminal() {
      assert Tokens(after) == Tokens(s) - multiset{id};
      ConservedWithout(s.db.jobs, Tokens(s), id);
    } else {
      assert Tokens(after) == Tokens(s);
    }
  }

  lemma PushKeeps(s: System, id: JobId)
    requires SystemInv(s)
    requires Enabled(s, Push(id))
    ensures SystemInv(Do(s, Push(id)))
    ensures JobsKept(s.db, Do(s, Push(id)).db)
  {
    hide DbInv, JobsKept, WorkersSound, LeavingSound, Conserved;
    var after := Do(s, Push(id));
    assert multiset([id] + s.db.queue) == multiset{id} + multiset(s.db.queue);
    assert Tokens(after) == Tokens(s);
    ListsDoNotMatter(s.db, after.db.queue, after.db.processing);
    OthersStaySound(s.db, after.db, s.workers, s.leaving);
  }

  /** Every step of everyone keeps the invariant and undoes nothing. */
  lemma StepKeeps(s: System, step: Step)
    requires SystemInv(s)
    requires Enabled(s, step)
    ensures SystemInv(Do(s, step))
    ensures JobsKept(s.db, Do(s, step).db)
  {
    hide DbInv, JobsKept, Conserved;
    match step
    case Create(request, draw) => CreateKeeps(s, request, draw);
    case EndLeave(leave, eventId, now) => LeaveKeeps(s, leave, eventId, now);
    case Work(w, action) => WorkKeeps(s, w, action);
    case Pop => PopKeeps(s);
    case Judge(id) => JudgeKeeps(s, id);
    case Push(id) => PushKeeps(s, id);
    case _ => JobsKeptRefl(s.db);
  }

  // ----- every run -----

  lemma InitialHolds(maxQueued: int)
    ensures SystemInv(Initial(maxQueued))
  {
  }

  lemma JobsKeptTrans(a: Db, b: Db, c: Db)
    requires JobsKept(a, b) && JobsKept(b, c)
    ensures JobsKept(a, c)
  {
  }

  /** Along every run the invariant holds and nothing that was settled is undone: in particular a job that
      has ended keeps its state, progress, result and log, whatever anyone still in flight does. */
  lemma {:induction false} RunKeeps(s: System, steps: seq<Step>)
    requires SystemInv(s)
    requires IsRun(s, steps)
    ensures SystemInv(After(s, steps))
    ensures JobsKept(s.db, After(s, steps).db)
    decreases |steps|
  {
    hide SystemInv, JobsKept, Do, Enabled;
    if steps == [] {
      JobsKeptRefl(s.db);
    } else {
      var next := Do(s, steps[0]);
      StepKeeps(s, steps[0]);
      RunKeeps(next, steps[1..]);
      JobsKeptTrans(s.db, next.db, After(s, steps).db);
    }
  }

  /** The state of a queue that began empty. */
  ghost predicate Reachable(s: System) {
    exists steps :: IsRun(Initial(s.maxQueued), steps) && After(Initial(s.maxQueued), steps) == s
  }

  lemma ReachableInv(s: System)
    requires Reachable(s)
    ensures SystemInv(s)
  {
    hide SystemInv, JobsKept, Do, Enabled;
    var steps :| IsRun(Initial(s.maxQueued), steps) && After(Initial(s.maxQueued), steps) == s;
    InitialHolds(s.maxQueued);
    RunKeeps(Initial(s.maxQueued), steps);
  }

  /** Conservation: in every reachable state a live job is in exactly one of queue, processing and the hands
      of recoveries, and no identifier is ever in two places. */
  lemma NothingLostOrDoubled(s: System, id: JobId)
    requires Reachable(s)
    ensures Tokens(s)[id] <= 1
    ensures Tokens(s)[id] == 1 ==> id in s.db.jobs
    ensures id in s.db.jobs && !s.db.jobs[id].state.Terminal() ==> Tokens(s)[id] == 1
  {
    hide DbInv, WorkersSound, LeavingSound, Reachable, Tokens;
    ReachableInv(s);
  }

  /** Coalescing: two live jobs never share a fingerprint. */
  lemma OneLiveJobPerFingerprint(s: System, a: JobId, b: JobId)
    requires Reachable(s)
    requires Live(s.db.jobs, a) && Live(s.db.jobs, b)
    requires s.db.jobs[a].fingerprint == s.db.jobs[b].fingerprint
    ensures a == b
  {
    hide Conserved, WorkersSound, LeavingSound, Reachable;
    ReachableInv(s);
  }
}
