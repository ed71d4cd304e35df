/** Runs that show what the guarantees depend on: one writer for each job, and no death with an identifier in hand. */
module JobTraces {
  import opened Wrappers
  import opened JobTypes
  import opened JobScripts
  import opened JobInvariants
  import opened JobSystem
  import opened JobSafety
  import opened JobLogs

  lemma {:induction false} RunExtends(s: System, steps: seq<Step>, step: Step)
    requires IsRun(s, steps)
    requires Enabled(After(s, steps), step)
    ensures IsRun(s, steps + [step])
    ensures After(s, steps + [step]) == Do(After(s, steps), step)
    decreases |steps|
  {
    hide Enabled, Do;
    if steps != [] {
      assert (steps + [step])[1..] == steps[1..] + [step];
      RunExtends(Do(s, steps[0]), steps[1..], step);
    } else {
      assert (steps + [step])[1..] == [];
      assert IsRun(Do(s, step), []);
    }
  }

  lemma ReachableStep(s: System, step: Step)
    requires Reachable(s)
    requires Enabled(s, step)
    ensures Reachable(Do(s, step))
  {
    hide IsRun, After;
    var steps :| IsRun(Initial(s.maxQueued), steps) && After(Initial(s.maxQueued), steps) == s;
    RunExtends(Initial(s.maxQueued), steps, step);
    SameLimit(s, step);
  }

  lemma SameLimit(s: System, step: Step)
    requires Enabled(s, step)
    ensures Do(s, step).maxQueued == s.maxQueued
  {
    hide CreateOrJoinScript, UnsubscribeScript, Act;
  }

  lemma InitialIsReachable(maxQueued: int)
    ensures Reachable(Initial(maxQueued))
  {
    assert IsRun(Initial(maxQueued), []);
    assert After(Initial(maxQueued), []) == Initial(maxQueued);
  }

  // ----- two writers -----

  const REQUEST := CreateRequest(Resolution, "f", "key", "p")

  function JobIn(state: State, progress: int): Job {
    Job("j", Resolution, state, 1, 0, 0, "", "p", "f", progress)
  }

  function EventOf(state: State, message: string, progress: int): Event {
    Event("e", "j", state, message, 0, progress)
  }

  function Note(progress: int): Report {
    Report("m", progress, "", "e", 0)
  }

  function OneJob(job: Job, log: seq<Event>, queue: seq<JobId>, processing: seq<JobId>): Db {
    Db(map["j" := job], map["j" := {"key"}], map["j" := log], map["f" := "j"], map[("f", "key") := "j"], {},
       queue, processing)
  }

  function Race(db: Db, first: Worker, second: Worker, popped: multiset<JobId>, requeuing: multiset<JobId>): System {
    System(db, 2, map[0 := first, 1 := second], popped, requeuing, multiset{})
  }

  const BIRTH := EventOf(Queued, QUEUED_MESSAGE, 0)
  const NEW_JOB := JobIn(Queued, 0)

  lemma JobIsCreated() returns (s: System)
    ensures Reachable(s)
    ensures s == System(OneJob(NEW_JOB, [BIRTH], ["j"], []), 2, map[], multiset{}, multiset{}, multiset{})
  {
    hide Reachable;
    InitialIsReachable(2);
    var create := Create(REQUEST, Draw("j", "e", 0));
    ReachableStep(Initial(2), create);
    s := Do(Initial(2), create);
    assert s.db.subscribers["j"] == {"key"};
    assert s.db.events["j"] == [BIRTH];
    assert s.db == OneJob(NEW_JOB, [BIRTH], ["j"], []);
  }

  /** The job is created and two workers are started. */
  lemma RaceStarts() returns (s: System)
    ensures Reachable(s)
    ensures s == Race(OneJob(NEW_JOB, [BIRTH], ["j"], []), Idle, Idle, multiset{}, multiset{})
  {
    hide Reachable;
    var s1 := JobIsCreated();
    ReachableStep(s1, Spawn(0));
    var s2 := Do(s1, Spawn(0));
    ReachableStep(s2, Spawn(1));
    s := Do(s2, Spawn(1));
    assert s.workers == map[0 := Idle, 1 := Idle];
  }

  /** One of the two workers acts. */
  lemma FirstActs(s: System, action: Action) returns (after: System)
    requires Reachable(s)
    requires s.workers.Keys == {0, 1}
    requires CanAct(s.db, s.workers[0], action)
    ensures Reachable(after)
    ensures var (db, moved) := Act(s.db, s.workers[0], action);
            after == Race(db, moved, s.workers[1], s.popped, s.requeuing).(leaving := s.leaving, maxQueued := s.maxQueued)
  {
    hide Reachable, Act;
    ReachableStep(s, Work(0, action));
    after := Do(s, Work(0, action));
    assert after.workers == map[0 := Act(s.db, s.workers[0], action).1, 1 := s.workers[1]];
  }

  lemma SecondActs(s: System, action: Action) returns (after: System)
    requires Reachable(s)
    requires s.workers.Keys == {0, 1}
    requires CanAct(s.db, s.workers[1], action)
    ensures Reachable(after)
    ensures var (db, moved) := Act(s.db, s.workers[1], action);
            after == Race(db, s.workers[0], moved, s.popped, s.requeuing).(leaving := s.leaving, maxQueued := s.maxQueued)
  {
    hide Reachable, Act;
    ReachableStep(s, Work(1, action));
    after := Do(s, Work(1, action));
    assert after.workers == map[0 := s.workers[0], 1 := Act(s.db, s.workers[1], action).1];
  }

  function Steady(db: Db, first: Worker, second: Worker): System {
    Race(db, first, second, multiset{}, multiset{})
  }

  const READING := Reporting("j", false, NEW_JOB, CheckingCache)

  /** The first worker claims the job, executes it and reads it for its first report. */
  lemma FirstReads(s: System) returns (after: System)
    requires s == Steady(OneJob(NEW_JOB, [BIRTH], ["j"], []), Idle, Idle) && Reachable(s)
    ensures Reachable(after)
    ensures after == Steady(OneJob(NEW_JOB, [BIRTH], [], ["j"]), READING, Idle)
  {
    hide Reachable;
    var s1 := FirstActs(s, Claim);
    assert s1.db == OneJob(NEW_JOB, [BIRTH], [], ["j"]);
    var s2 := FirstActs(s1, Look);
    var s3 := FirstActs(s2, CheckFlag);
    after := FirstActs(s3, BeginReport(CheckingCache));
  }

  /** A second process recovers the job while the first still runs. */
  lemma SecondRecovers(s: System) returns (after: System)
    requires s == Steady(OneJob(NEW_JOB, [BIRTH], [], ["j"]), READING, Idle) && Reachable(s)
    ensures Reachable(after)
    ensures after == Steady(OneJob(NEW_JOB, [BIRTH], ["j"], []), READING, Idle)
  {
    hide Reachable;
    ReachableStep(s, Pop);
    var s1 := Do(s, Pop);
    assert s1 == Race(OneJob(NEW_JOB, [BIRTH], [], []), READING, Idle, multiset{"j"}, multiset{});
    ReachableStep(s1, Judge("j"));
    var s2 := Do(s1, Judge("j"));
    assert s2 == Race(OneJob(NEW_JOB, [BIRTH], [], []), READING, Idle, multiset{}, multiset{"j"});
    ReachableStep(s2, Push("j"));
    after := Do(s2, Push("j"));
    assert after == Race(OneJob(NEW_JOB, [BIRTH], ["j"], []), READING, Idle, multiset{}, multiset{});
  }

  /** The second worker claims the same job and reads it too. */
  lemma SecondReads(s: System) returns (after: System)
    requires s == Steady(OneJob(NEW_JOB, [BIRTH], ["j"], []), READING, Idle) && Reachable(s)
    ensures Reachable(after)
    ensures after == Steady(OneJob(NEW_JOB, [BIRTH], [], ["j"]), READING, Reporting("j", false, NEW_JOB, Searching))
  {
    hide Reachable;
    var s1 := SecondActs(s, Claim);
    assert s1.db == OneJob(NEW_JOB, [BIRTH], [], ["j"]);
    var s2 := SecondActs(s1, Look);
    var s3 := SecondActs(s2, CheckFlag);
    after := SecondActs(s3, BeginReport(Searching));
  }

  /** A worker that has read the queued job writes, whatever state the job has meanwhile. */
  lemma WriteLands(db: Db, next: State, progress: int)
    requires "j" in db.jobs && !db.jobs["j"].state.Terminal() && "j" !in db.cancelFlags
    requires 0 <= progress <= 100
    ensures var (after, moved) := Act(db, Reporting("j", false, NEW_JOB, next), EndReport(Note(progress)));
            && moved == Executing("j", false)
            && "j" in after.jobs && after.jobs["j"].state == next
            && after.cancelFlags == db.cancelFlags
            && LogOf(after.events, "j") == LogOf(db.events, "j") + [EventOf(next, "m", progress)]
  {
    hide Release;
  }

  /** Without the single session the transition table is not kept: the first worker's late write takes the job
      from searching back to checking the cache, which its old read of the queued job allowed. */
  lemma TwoWritersBreakTheTable() returns (s: System)
    ensures Reachable(s)
    ensures "j" in s.db.jobs
    ensures !FollowsTable(LogOf(s.db.events, "j"))
  {
    hide Reachable, Act, FollowsTable;
    var s0 := RaceStarts();
    var s1 := FirstReads(s0);
    var s2 := SecondRecovers(s1);
    var s3 := SecondReads(s2);
    WriteLands(s3.db, Searching, 30);
    var s4 := SecondActs(s3, EndReport(Note(30)));
    WriteLands(s4.db, CheckingCache, 10);
    s := FirstActs(s4, EndReport(Note(10)));
    GoesBack(LogOf(s.db.events, "j"));
  }

  lemma GoesBack(log: seq<Event>)
    requires log == [BIRTH] + [EventOf(Searching, "m", 30)] + [EventOf(CheckingCache, "m", 10)]
    ensures !FollowsTable(log)
  {
    assert !Follows(log[1].state, log[1 + 1].state);
  }

  /** What a late write does to a log that follows the table so far: it goes on following it exactly if the job has
      ended, so that nothing is written, or the table allows the written state after the stored one, which may
      not be the one the writer read. */
  lemma LateWriteFollowsExactly(db: Db, write: Write)
    requires DbInv(db) && write.id in db.jobs && FollowsTable(LogOf(db.events, write.id))
    ensures FollowsTable(LogOf(TransitionScript(db, write).db.events, write.id)) <==>
              db.jobs[write.id].state.Terminal() || Follows(db.jobs[write.id].state, write.state)
  {
    hide CoalesceExact, SubscriptionsExact, CountsExact, CancelFlagsSound, FollowsTable, Follows, AllowedTransition;
    FactsOf(db, write.id);
    var log := LogOf(db.events, write.id);
    assert LogTrue(log, db.jobs[write.id]);
    if !db.jobs[write.id].state.Terminal() {
      var event := Event(write.eventId, write.id, write.state, write.message, write.now, write.progress);
      WritesOne(db, write);
      AppendFollows(log, event);
    } else {
      assert TransitionScript(db, write).db == db;
    }
  }

  lemma WritesOne(db: Db, write: Write)
    requires DbInv(db) && write.id in db.jobs && !db.jobs[write.id].state.Terminal()
    ensures LogOf(TransitionScript(db, write).db.events, write.id) ==
            LogOf(db.events, write.id)
            + [Event(write.eventId, write.id, write.state, write.message, write.now, write.progress)]
  {
    hide CoalesceExact, SubscriptionsExact, CountsExact, LogsTrue, Release;
  }

  lemma AppendFollows(log: seq<Event>, event: Event)
    requires log != [] && FollowsTable(log)
    ensures FollowsTable(log + [event]) <==> Follows(log[|log| - 1].state, event.state)
  {
    hide Follows;
    var grown := log + [event];
    if FollowsTable(grown) {
      assert Follows(grown[|log| - 1].state, grown[|log| - 1 + 1].state);
    }
    if Follows(log[|log| - 1].state, event.state) {
      forall i | 0 <= i < |grown| - 1
        ensures Follows(grown[i].state, grown[i + 1].state)
      {
        if i < |log| - 1 {
          assert Follows(log[i].state, log[i + 1].state);
        }
      }
    }
  }

  // ----- a death with an identifier in hand -----

  /** The process dies between taking an identifier out of processing and putting it back: before it has read the
      job, or after. */
  ghost function DieInHand(s: System, id: JobId): System
    requires id in s.popped || id in s.requeuing
  {
    if id in s.popped then s.(popped := s.popped - multiset{id}) else s.(requeuing := s.requeuing - multiset{id})
  }

  /** Nothing on its way through the queue, and nobody at work, has the job. */
  ghost predicate Abandoned(s: System, id: JobId) {
    && id in s.db.jobs
    && id !in s.db.queue && id !in s.db.processing && id !in s.popped && id !in s.requeuing
    && forall w <- s.workers :: Held(s.workers[w]) != Some(id)
  }

  lemma WriteElsewhere(db: Db, write: Write, id: JobId)
    requires id in db.jobs && write.id != id
    ensures id in TransitionScript(db, write).db.jobs
    ensures TransitionScript(db, write).db.jobs[id] == db.jobs[id]
    ensures var after := TransitionScript(db, write).db;
            after.queue == db.queue && after.processing == db.processing
  {
  }

  lemma AbandonedAct(db: Db, worker: Worker, action: Action, id: JobId)
    requires CanAct(db, worker, action)
    requires id in db.jobs && id !in db.queue && id !in db.processing && Held(worker) != Some(id)
    ensures var (after, moved) := Act(db, worker, action);
            && id in after.jobs && after.jobs[id] == db.jobs[id]
            && id !in after.queue && id !in after.processing && Held(moved) != Some(id)
  {
    hide TransitionScript;
    match action
    case Claim =>
      assert db.queue[|db.queue| - 1] in db.queue;
    case EndReport(report) =>
      WriteElsewhere(db, ReportedWrite(worker.id, worker.seen, worker.next, report), id);
    case EndForce(eventId, now) =>
      WriteElsewhere(db, ForcedWrite(worker.id, worker.ending, worker.seen, eventId, now), id);
    case Ack =>
      assert forall x :: x in RemoveFirst(db.processing, worker.id) ==> x in db.processing by {
        forall x | x in RemoveFirst(db.processing, worker.id)
          ensures x in db.processing
        {
          RemoveFirstTakesOne(db.processing, worker.id);
          assert x in multiset(RemoveFirst(db.processing, worker.id));
          assert x in multiset(db.processing);
        }
      }
    case _ =>
  }

  lemma AbandonedByWorkers(s: System, w: nat, action: Action, id: JobId)
    requires Abandoned(s, id)
    requires Enabled(s, Work(w, action))
    ensures Abandoned(Do(s, Work(w, action)), id)
    ensures Do(s, Work(w, action)).db.jobs[id] == s.db.jobs[id]
  {
    hide Act, CanAct;
    AbandonedAct(s.db, s.workers[w], action, id);
  }

  lemma AbandonedByRecovery(s: System, step: Step, id: JobId)
    requires Abandoned(s, id)
    requires step.Pop? || step.Judge? || step.Push?
    requires Enabled(s, step)
    ensures Abandoned(Do(s, step), id)
    ensures Do(s, step).db.jobs == s.db.jobs
  {
    if step.Pop? {
      assert s.db.processing[|s.db.processing| - 1] in s.db.processing;
    }
  }

  lemma AbandonedByClients(s: System, step: Step, id: JobId)
    requires Abandoned(s, id)
    requires step.Create? || step.EndLeave?
    requires Enabled(s, step)
    ensures Abandoned(Do(s, step), id)
    ensures Do(s, step).db.jobs[id].state in {s.db.jobs[id].state, Cancelled}
  {
    hide CreateOrJoinScript, UnsubscribeScript, LogMoves;
    match step
    case Create(request, draw) =>
      CreateOrJoinAddsOnlyCreated(s.db, request, draw, s.maxQueued);
      CreateLeavesState(s.db, request, draw, s.maxQueued, id);
    case EndLeave(leave, eventId, now) =>
      UnsubscribeKeys(s.db, leave, eventId, now);
      UnsubscribeMoves(s.db, leave, eventId, now);
      assert ClientMove(s.db, Do(s, step).db, id);
  }

  /** Who comes to know of a job only does so through the queue. */
  lemma AbandonedStays(s: System, step: Step, id: JobId)
    requires Abandoned(s, id)
    requires Enabled(s, step)
    ensures Abandoned(Do(s, step), id)
    ensures Do(s, step).db.jobs[id].state in {s.db.jobs[id].state, Cancelled}
  {
    hide Act, CanAct, CreateOrJoinScript, UnsubscribeScript;
    if step.Create? || step.EndLeave? {
      AbandonedByClients(s, step, id);
    } else if step.Pop? || step.Judge? || step.Push? {
      AbandonedByRecovery(s, step, id);
    } else if step.Work? {
      AbandonedByWorkers(s, step.worker, step.action, id);
    }
  }

  lemma CreateLeavesState(db: Db, request: CreateRequest, draw: Draw, maxQueued: int, id: JobId)
    requires id in db.jobs && draw.jobId != id
    ensures var after := CreateOrJoinScript(db, request, draw, maxQueued).db;
            id in after.jobs && after.jobs[id].state == db.jobs[id].state
  {
  }

  /** A job that was in hand when its process died, and that nobody was still executing, never runs again:
      whatever happens afterwards, no worker ever gets it, and it keeps its state for ever unless its last
      subscriber leaves. This is why a death at that point is excluded from the runs above. */
  lemma {:induction false} LostForever(s: System, steps: seq<Step>, id: JobId)
    requires Abandoned(s, id)
    requires IsRun(s, steps)
    ensures id in s.db.jobs && id in After(s, steps).db.jobs
    ensures Abandoned(After(s, steps), id)
    ensures After(s, steps).db.jobs[id].state in {s.db.jobs[id].state, Cancelled}
    decreases |steps|
  {
    hide Enabled, Do, Abandoned;
    assert id in s.db.jobs by { AbandonedKnown(s, id); }
    if steps != [] {
      AbandonedStays(s, steps[0], id);
      AbandonedKnown(Do(s, steps[0]), id);
      LostForever(Do(s, steps[0]), steps[1..], id);
    }
  }

  lemma AbandonedKnown(s: System, id: JobId)
    requires Abandoned(s, id)
    ensures id in s.db.jobs
  {
  }

  /** Dying with an identifier in hand loses nothing exactly if its job has ended, and abandons the job exactly if
      no worker has it. */
  lemma DyingInHandLoses(s: System, id: JobId)
    requires SystemInv(s)
    requires id in s.popped || id in s.requeuing
    ensures var after := DieInHand(s, id);
            && (Conserved(after.db.jobs, Tokens(after)) <==> Ended(s.db.jobs, id))
            && (Abandoned(after, id) <==> forall w <- s.workers :: Held(s.workers[w]) != Some(id))
  {
    hide DbInv, WorkersSound, LeavingSound, Conserved, Tokens, WorkerSound;
    var after := DieInHand(s, id);
    TokenGone(s, id);
    WithoutOne(s.db.jobs, Tokens(s), id);
  }

  lemma WithoutOne(jobs: Jobs, tokens: multiset<JobId>, id: JobId)
    requires Conserved(jobs, tokens) && id in tokens
    ensures id in jobs && tokens[id] == 1
    ensures Conserved(jobs, tokens - multiset{id}) <==> Ended(jobs, id)
  {
    assert id !in tokens - multiset{id};
  }

  lemma TokenGone(s: System, id: JobId)
    requires Conserved(s.db.jobs, Tokens(s))
    requires id in s.popped || id in s.requeuing
    ensures var after := DieInHand(s, id);
            && id in Tokens(s) && Tokens(after) == Tokens(s) - multiset{id}
            && id !in after.db.queue && id !in after.db.processing && id !in after.popped && id !in after.requeuing
  {
    var after := DieInHand(s, id);
    assert id in Tokens(s) && Tokens(s)[id] == 1;
    assert Tokens(after) == Tokens(s) - multiset{id};
    assert Tokens(after)[id] == 0;
    assert multiset(s.db.queue)[id] == 0 && multiset(s.db.processing)[id] == 0;
  }

  function Alone(db: Db, workers: map<nat, Worker>, popped: multiset<JobId>, requeuing: multiset<JobId>): System {
    System(db, 2, workers, popped, requeuing, multiset{})
  }

  /** A job that is lost: it is created and claimed, the worker's process goes down, the next process recovers, and
      dies with the identifier in hand, before it has read the job or after. From there on nobody ever gets it. */
  lemma RecoveryCanLose() returns (before: System, after: System)
    ensures Reachable(before) && "j" in before.popped && Reachable(after) && "j" in after.requeuing
    ensures forall s: System :: s == before || s == after ==>
              && Live(s.db.jobs, "j")
              && Abandoned(DieInHand(s, "j"), "j")
              && !Conserved(DieInHand(s, "j").db.jobs, Tokens(DieInHand(s, "j")))
  {
    hide Reachable;
    var s := ClaimedAndLeft();
    ReachableStep(s, Pop);
    before := Do(s, Pop);
    var db := OneJob(NEW_JOB, [BIRTH], [], []);
    assert before == Alone(db, map[], multiset{"j"}, multiset{});
    ReachableStep(before, Judge("j"));
    after := Do(before, Judge("j"));
    assert after == Alone(db, map[], multiset{}, multiset{"j"});
    ReachableInv(before);
    ReachableInv(after);
    hide SystemInv, Conserved, Abandoned, Tokens;
    DyingInHandLoses(before, "j");
    DyingInHandLoses(after, "j");
  }

  lemma ClaimedAndLeft() returns (s: System)
    ensures Reachable(s)
    ensures s == Alone(OneJob(NEW_JOB, [BIRTH], [], ["j"]), map[], multiset{}, multiset{})
  {
    hide Reachable;
    var s1 := JobIsCreated();
    ReachableStep(s1, Spawn(0));
    var s2 := Do(s1, Spawn(0));
    assert s2 == Alone(OneJob(NEW_JOB, [BIRTH], ["j"], []), map[0 := Idle], multiset{}, multiset{});
    s := ClaimsAndLeaves(s2);
  }

  lemma ClaimsAndLeaves(s: System) returns (after: System)
    requires s == Alone(OneJob(NEW_JOB, [BIRTH], ["j"], []), map[0 := Idle], multiset{}, multiset{}) && Reachable(s)
    ensures Reachable(after)
    ensures after == Alone(OneJob(NEW_JOB, [BIRTH], [], ["j"]), map[], multiset{}, multiset{})
  {
    hide Reachable;
    ReachableStep(s, Work(0, Claim));
    var claimed := Do(s, Work(0, Claim));
    assert claimed.db == OneJob(NEW_JOB, [BIRTH], [], ["j"]);
    ReachableStep(claimed, Work(0, Halt));
    var halted := Do(claimed, Work(0, Halt));
    ReachableStep(halted, Vanish(0));
    after := Do(halted, Vanish(0));
    assert after.workers == map[];
  }
}
