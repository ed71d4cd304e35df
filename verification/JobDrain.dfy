/** A runner that recovers and then works alone empties the queue and leaves every job ended. */
module JobDrain {
  import opened JobTypes
  import opened JobScripts
  import opened JobInvariants
  import opened JobSystem
  import opened JobSafety
  import opened JobSession
  import opened JobLogs
  import opened JobStore
  import opened JobRunner

  /** What a store looks like when nobody is at work: every live job is on one of the two lists, once. */
  ghost predicate AtRest(db: Db) {
    DbInv(db) && Conserved(db.jobs, multiset(db.queue) + multiset(db.processing))
  }

  /** The store is at rest whenever the runner process is down, however it went down. */
  lemma DownIsAtRest(x: Session)
    requires Served(x)
    requires x.sys.maxQueued >= 0
    requires x.phase.Down?
    ensures AtRest(x.sys.db)
  {
    hide DbInv, WorkersSound, LeavingSound, Served, AllFresh, Bounded;
    ServedInv(x);
    assert Tokens(x.sys) == multiset(x.sys.db.queue) + multiset(x.sys.db.processing);
  }

  /** After any race of clients, workers and recoveries the store is at rest as soon as no recovery has anything in
      hand, whoever is still at work. */
  lemma ReachableAtRest(s: System)
    requires Reachable(s) && NoHand(s)
    ensures AtRest(s.db)
  {
    hide DbInv, WorkersSound, LeavingSound, Conserved, Reachable;
    ReachableInv(s);
    assert Tokens(s) == multiset(s.db.queue) + multiset(s.db.processing);
  }

  lemma RecoveredAtRest(jobs: Jobs, queue: seq<JobId>, processing: seq<JobId>)
    requires Conserved(jobs, multiset(queue) + multiset(processing))
    ensures Conserved(jobs, multiset(LiveOnly(jobs, processing) + queue))
  {
    var before, after := multiset(queue) + multiset(processing), multiset(LiveOnly(jobs, processing) + queue);
    forall id
      ensures after[id] <= before[id]
      ensures id in jobs && !jobs[id].state.Terminal() ==> after[id] == before[id]
    {
      LiveOnlyContents(jobs, processing, id);
      assert after == multiset(LiveOnly(jobs, processing)) + multiset(queue);
    }
    forall id <- after
      ensures after[id] == 1 && id in jobs
    {
      assert id in before;
    }
    forall id <- jobs | !jobs[id].state.Terminal()
      ensures id in after
    {
      assert id in before;
    }
  }

  lemma WithoutTheLast(jobs: Jobs, rest: seq<JobId>, processing: seq<JobId>, id: JobId)
    requires Conserved(jobs, multiset(rest + [id]) + multiset(processing))
    requires Ended(jobs, id)
    ensures Conserved(jobs, multiset(rest) + multiset(processing))
  {
    var all := multiset(rest + [id]) + multiset(processing);
    assert all - multiset{id} == multiset(rest) + multiset(processing);
    ConservedWithout(jobs, all, id);
  }

  /** One turn of the worker loop on the last identifier of the queue, whatever else is being processed. */
  method Turn(runner: Runner, executor: Job -> Plan, eventId: string, now: int)
    requires AtRest(runner.store.View()) && runner.store.queue != []
    requires forall job :: Returns(executor(job))
    modifies runner.store`jobs, runner.store`coalesce, runner.store`events, runner.store`queue, runner.store`processing
    ensures AtRest(runner.store.View()) && JobsKept(old(runner.store.View()), runner.store.View())
    ensures runner.store.jobs.Keys == old(runner.store.jobs.Keys)
    ensures runner.store.queue == old(runner.store.queue)[..|old(runner.store.queue)| - 1]
    ensures runner.store.processing == old(runner.store.processing)
    ensures Ended(runner.store.jobs, old(runner.store.queue)[|old(runner.store.queue)| - 1])
  {
    hide DbInv, JobsKept, Conserved, Plays, RemoveFirst, ClaimStep;
    var store := runner.store;
    ghost var was := store.View();
    var claimed := store.Claim();
    var id := claimed.value;
    FirstIsRemoved(id, was.processing);
    ghost var mid := store.View();
    ListsDoNotMatter(was, store.queue, store.processing);
    assert was.queue == store.queue + [id];
    QueuedIsKnown(was, id);
    var worker;
    ghost var trace;
    worker, trace := runner.Process(id, executor(store.jobs[id]), eventId, now);
    JobsKeptTrans(was, mid, store.View());
    ConservedStays(was, store.View(), multiset(was.queue) + multiset(was.processing));
    WithoutTheLast(store.jobs, store.queue, store.processing, id);
  }

  lemma FirstIsRemoved(id: JobId, rest: seq<JobId>)
    ensures RemoveFirst([id] + rest, id) == rest
  {
  }

  lemma QueuedIsKnown(db: Db, id: JobId)
    requires Conserved(db.jobs, multiset(db.queue) + multiset(db.processing)) && id in db.queue
    ensures id in db.jobs
  {
    assert id in multiset(db.queue) + multiset(db.processing);
  }

  /** Recover, then work until the queue is empty, with an executor that returns. It terminates with both lists
      empty and every job ended, having taken one turn for each job recovered and each already queued. */
  method Drain(runner: Runner, executor: Job -> Plan, stamp: nat -> (string, int)) returns (turns: nat)
    requires AtRest(runner.store.View())
    requires forall job :: Returns(executor(job))
    modifies runner.store`jobs, runner.store`coalesce, runner.store`events, runner.store`queue, runner.store`processing
    ensures runner.store.Valid() && JobsKept(old(runner.store.View()), runner.store.View())
    ensures runner.store.jobs.Keys == old(runner.store.jobs.Keys)
    ensures runner.store.queue == [] && runner.store.processing == []
    ensures forall id <- runner.store.jobs :: runner.store.jobs[id].state.Terminal()
    ensures turns == |LiveOnly(old(runner.store.jobs), old(runner.store.processing))| + |old(runner.store.queue)|
  {
    hide DbInv, JobsKept, Conserved;
    var store := runner.store;
    ghost var was := store.View();
    RecoveredAtRest(was.jobs, was.queue, was.processing);
    var recovered := store.Recover();
    ListsDoNotMatter(was, store.queue, store.processing);
    NothingElse(store.jobs, store.queue);
    turns := 0;
    while store.queue != []
      invariant AtRest(store.View()) && JobsKept(was, store.View())
      invariant store.jobs.Keys == was.jobs.Keys
      invariant store.processing == []
      invariant turns + |store.queue| == |LiveOnly(was.jobs, was.processing)| + |was.queue|
      decreases |store.queue|
    {
      ghost var mid := store.View();
      Turn(runner, executor, stamp(turns).0, stamp(turns).1);
      JobsKeptTrans(was, mid, store.View());
      turns := turns + 1;
    }
    NothingElse(store.jobs, store.queue);
    NothingLive(store.jobs);
  }

  lemma NothingElse(jobs: Jobs, queue: seq<JobId>)
    ensures Conserved(jobs, multiset(queue) + multiset([])) <==> Conserved(jobs, multiset(queue))
  {
    assert multiset(queue) + multiset([]) == multiset(queue);
  }

  lemma NothingLive(jobs: Jobs)
    requires Conserved(jobs, multiset([]))
    ensures forall id <- jobs :: jobs[id].state.Terminal()
  {
  }
}
