/** The create script keeps the invariant and does what its reply says. */
module JobCreate {
  import opened JobTypes
  import opened JobScripts
  import opened JobInvariants

  /** Some job of the fingerprint has the key among its subscribers. */
  ghost predicate Subscribed(db: Db, request: CreateRequest) {
    exists id <- db.jobs ::
      db.jobs[id].fingerprint == request.fingerprint && request.key in SubscribersOf(db.subscribers, id)
  }

  /** Some job of the fingerprint is still running. */
  ghost predicate Active(db: Db, fingerprint: Fingerprint) {
    exists id <- db.jobs :: !db.jobs[id].state.Terminal() && db.jobs[id].fingerprint == fingerprint
  }

  /** The job of the reply, its subscribers and its log are the given ones, and no other job's are touched. */
  ghost predicate OnlyJobIs(before: Db, after: Db, id: JobId, job: Job, keys: set<SubscriberKey>, log: seq<Event>) {
    && after.jobs == before.jobs[id := job]
    && after.subscribers == before.subscribers[id := keys]
    && after.events == before.events[id := log]
    && after.processing == before.processing && after.cancelFlags == before.cancelFlags
  }

  /** Joining: the key is added to the live job's subscribers, with its entry and an event, and nothing else changes. */
  ghost predicate JoinMeaning(db: Db, request: CreateRequest, draw: Draw, reply: CreateReply) {
    && Live(db.jobs, reply.id) && db.jobs[reply.id].fingerprint == request.fingerprint
    && request.key !in SubscribersOf(db.subscribers, reply.id)
    && var before := db.jobs[reply.id];
    && OnlyJobIs(
         db, reply.db, reply.id,
         before.(subscriberCount := before.subscriberCount + 1, updatedAt := draw.now),
         SubscribersOf(db.subscribers, reply.id) + {request.key},
         LogOf(db.events, reply.id)
         + [Event(draw.eventId, reply.id, before.state, JOINED_MESSAGE, draw.now, before.progress)])
    && reply.db.idempotency == db.idempotency[(request.fingerprint, request.key) := reply.id]
    && reply.db.coalesce == db.coalesce
    && reply.db.queue == db.queue
  }

  /** Creating: a queued job with one subscriber and one event, with both its entries, at the end of the queue. */
  ghost predicate NewMeaning(db: Db, request: CreateRequest, draw: Draw, reply: CreateReply) {
    && reply.id == draw.jobId && reply.id !in db.jobs
    && OnlyJobIs(
         db, reply.db, reply.id,
         Job(reply.id, request.kind, Queued, 1, draw.now, draw.now, "", request.payload, request.fingerprint, 0),
         {request.key},
         [Event(draw.eventId, reply.id, Queued, QUEUED_MESSAGE, draw.now, 0)])
    && reply.db.idempotency == db.idempotency[(request.fingerprint, request.key) := reply.id]
    && request.fingerprint !in db.coalesce && reply.db.coalesce == db.coalesce[request.fingerprint := reply.id]
    && reply.db.queue == db.queue + [reply.id]
  }

  /** What a caller finds: the same key gets its own job back; a running job of the fingerprint is joined;
      otherwise a job is created unless the queue is full. Nothing about any other job changes. */
  ghost predicate CreateMeaning(db: Db, request: CreateRequest, draw: Draw, maxQueued: int, reply: CreateReply) {
    && (reply.outcome ==
          if Subscribed(db, request) then Idempotent
          else if Active(db, request.fingerprint) then Joined
          else if |db.queue| >= maxQueued then Full
          else Created)
    && (reply.outcome in {Idempotent, Full} ==> reply.db == db)
    && (reply.outcome != Full ==>
          && reply.id in reply.db.jobs
          && reply.db.jobs[reply.id].fingerprint == request.fingerprint
          && request.key in SubscribersOf(reply.db.subscribers, reply.id))
    && (reply.outcome == Joined ==> JoinMeaning(db, request, draw, reply))
    && (reply.outcome == Created ==> NewMeaning(db, request, draw, reply))
  }

  ghost predicate JoinKnown(db: Db, request: CreateRequest, existing: JobId) {
    && Live(db.jobs, existing)
    && db.jobs[existing].fingerprint == request.fingerprint
    && (request.fingerprint, request.key) !in db.idempotency
  }

  /** A key without an entry is not yet in the set, so the branch that adds nothing is never taken. */
  lemma JoinAdds(db: Db, request: CreateRequest, existing: JobId, draw: Draw)
    requires DbInv(db)
    requires JoinKnown(db, request, existing)
    ensures request.key !in SubscribersOf(db.subscribers, existing)
    ensures JoinScript(db, request, existing, draw).outcome == Joined
  {
    assert request.key in SubscribersOf(db.subscribers, existing) ==>
        Names(db.idempotency, (request.fingerprint, request.key), existing);
  }

  lemma JoinKeeps(db: Db, request: CreateRequest, existing: JobId, draw: Draw)
    requires DbInv(db)
    requires JoinKnown(db, request, existing)
    ensures DbInv(JoinScript(db, request, existing, draw).db)
    ensures JobsKept(db, JoinScript(db, request, existing, draw).db)
  {
    hide CoalesceExact, SubscriptionsExact, CountsExact, LogsTrue, LogTrue, JobsKept, CancelFlagsSound;
    JoinAdds(db, request, existing, draw);
    FactsOf(db, existing);
    var after := JoinScript(db, request, existing, draw).db;
    var before, keys := db.jobs[existing], SubscribersOf(db.subscribers, existing) + {request.key};
    var job := before.(subscriberCount := |keys|, updatedAt := draw.now);
    var event := Event(draw.eventId, existing, job.state, JOINED_MESSAGE, draw.now, job.progress);
    LogGrows(LogOf(db.events, existing), before, event, job);
    LogsUpdate(db.jobs, db.events, existing, job, LogOf(db.events, existing) + [event]);
    CountsUpdate(db.jobs, db.subscribers, existing, job, keys);
    SubscriptionsSame(db.jobs, db.subscribers, db.idempotency, existing, job);
    SubscriptionsAdd(db.jobs[existing := job], db.subscribers, db.idempotency, existing, request.key);
    CoalesceSame(db.jobs, db.coalesce, existing, job);
    CancelFlagsKept(db.jobs, db.cancelFlags, existing, job);
    OneJobKept(db, after, existing);
  }

  ghost predicate NewKnown(db: Db, request: CreateRequest, draw: Draw) {
    && draw.jobId !in db.jobs
    && request.fingerprint !in db.coalesce
    && (request.fingerprint, request.key) !in db.idempotency
  }

  /** Nothing is stored under an identifier that no job has. */
  lemma NothingUnder(db: Db, id: JobId)
    requires DbInv(db) && id !in db.jobs
    ensures SubscribersOf(db.subscribers, id) == {} && LogOf(db.events, id) == []
  {
    hide CoalesceExact, CountsExact, LogsTrue, CancelFlagsSound;
  }

  lemma NewMeans(db: Db, request: CreateRequest, draw: Draw, maxQueued: int)
    requires DbInv(db) && NewKnown(db, request, draw) && |db.queue| < maxQueued
    ensures NewMeaning(db, request, draw, CreateScript(db, request, draw, maxQueued))
    ensures CreateScript(db, request, draw, maxQueued).outcome == Created
  {
    hide DbInv, LogOf, SubscribersOf;
    NothingUnder(db, draw.jobId);
    var log := [Event(draw.eventId, draw.jobId, Queued, QUEUED_MESSAGE, draw.now, 0)];
    assert {} + {request.key} == {request.key} && [] + log == log;
  }

  lemma NewKeepsParts(db: Db, request: CreateRequest, draw: Draw, after: Db, job: Job, log: seq<Event>)
    requires DbInv(db) && NewKnown(db, request, draw)
    requires job == Job(draw.jobId, request.kind, Queued, 1, draw.now, draw.now, "", request.payload, request.fingerprint, 0)
    requires log == [Event(draw.eventId, draw.jobId, Queued, QUEUED_MESSAGE, draw.now, 0)]
    requires OnlyJobIs(db, after, draw.jobId, job, {request.key}, log)
    requires after.idempotency == db.idempotency[(request.fingerprint, request.key) := draw.jobId]
    requires after.coalesce == db.coalesce[request.fingerprint := draw.jobId]
    ensures DbInv(after)
  {
    hide CoalesceExact, SubscriptionsExact, CountsExact, LogsTrue, LogTrue, CancelFlagsSound;
    var id := draw.jobId;
    NothingUnder(db, id);
    assert {} + {request.key} == {request.key};
    FirstLog(log, job);
    LogsUpdate(db.jobs, db.events, id, job, log);
    CountsUpdate(db.jobs, db.subscribers, id, job, {request.key});
    SubscriptionsNew(db.jobs, db.subscribers, db.idempotency, id, job);
    SubscriptionsAdd(db.jobs[id := job], db.subscribers, db.idempotency, id, request.key);
    CoalesceNew(db.jobs, db.coalesce, id, job);
    CancelFlagsKept(db.jobs, db.cancelFlags, id, job);
  }

  lemma NewKeeps(db: Db, request: CreateRequest, draw: Draw, maxQueued: int)
    requires DbInv(db)
    requires NewKnown(db, request, draw)
    ensures DbInv(CreateScript(db, request, draw, maxQueued).db)
    ensures JobsKept(db, CreateScript(db, request, draw, maxQueued).db)
  {
    hide DbInv, JobsKept;
    var reply := CreateScript(db, request, draw, maxQueued);
    if |db.queue| < maxQueued {
      NewMeans(db, request, draw, maxQueued);
      hide CreateScript;
      NewKeepsParts(db, request, draw, reply.db, reply.db.jobs[draw.jobId], reply.db.events[draw.jobId]);
    } else {
      assert reply.db == db;
    }
    OneJobKept(db, reply.db, draw.jobId);
  }

  /** The script's lookups find exactly the subscribed and the active jobs. */
  lemma LookupsExact(db: Db, request: CreateRequest)
    requires DbInv(db)
    ensures (request.fingerprint, request.key) in db.idempotency <==> Subscribed(db, request)
    ensures request.fingerprint in db.coalesce <==> Active(db, request.fingerprint)
    ensures request.fingerprint in db.coalesce ==>
              Live(db.jobs, db.coalesce[request.fingerprint])
              && db.jobs[db.coalesce[request.fingerprint]].fingerprint == request.fingerprint
  {
    if Subscribed(db, request) {
      var id :| id in db.jobs && db.jobs[id].fingerprint == request.fingerprint
                && request.key in SubscribersOf(db.subscribers, id);
      assert Names(db.idempotency, (request.fingerprint, request.key), id);
    }
    if request.fingerprint in db.coalesce {
      assert Live(db.jobs, db.coalesce[request.fingerprint]);
    }
  }

  lemma EntryFacts(db: Db, request: CreateRequest)
    requires DbInv(db)
    requires (request.fingerprint, request.key) in db.idempotency
    ensures var id := db.idempotency[(request.fingerprint, request.key)];
            id in db.jobs && db.jobs[id].fingerprint == request.fingerprint
            && request.key in SubscribersOf(db.subscribers, id)
  {
  }

  /** Every create or join keeps the invariant and undoes nothing, given a fresh job identifier. */
  lemma CreateOrJoinKeeps(db: Db, request: CreateRequest, draw: Draw, maxQueued: int)
    requires DbInv(db)
    requires draw.jobId !in db.jobs
    ensures DbInv(CreateOrJoinScript(db, request, draw, maxQueued).db)
    ensures JobsKept(db, CreateOrJoinScript(db, request, draw, maxQueued).db)
  {
    hide CoalesceExact, SubscriptionsExact, CountsExact, LogsTrue, LogTrue, JobsKept, CancelFlagsSound;
    LookupsExact(db, request);
    if (request.fingerprint, request.key) in db.idempotency {
      OneJobKept(db, db, draw.jobId);
      assert CreateOrJoinScript(db, request, draw, maxQueued).db == db;
    } else if request.fingerprint in db.coalesce {
      JoinKeeps(db, request, db.coalesce[request.fingerprint], draw);
    } else {
      NewKeeps(db, request, draw, maxQueued);
    }
  }

  lemma JoinMeans(db: Db, request: CreateRequest, existing: JobId, draw: Draw)
    requires DbInv(db) && JoinKnown(db, request, existing)
    ensures JoinMeaning(db, request, draw, JoinScript(db, request, existing, draw))
  {
    hide DbInv, LogOf, SubscribersOf, LogTrue;
    JoinAdds(db, request, existing, draw);
    FactsOf(db, existing);
    var keys := SubscribersOf(db.subscribers, existing);
    assert |keys + {request.key}| == |keys| + 1;
  }

  lemma CreateOrJoinMeans(db: Db, request: CreateRequest, draw: Draw, maxQueued: int)
    requires DbInv(db)
    requires draw.jobId !in db.jobs
    ensures CreateMeaning(db, request, draw, maxQueued, CreateOrJoinScript(db, request, draw, maxQueued))
  {
    hide DbInv, Subscribed, Active, JoinMeaning, NewMeaning, JoinScript, CreateScript;
    LookupsExact(db, request);
    var slot := (request.fingerprint, request.key);
    if slot in db.idempotency {
      EntryFacts(db, request);
    } else if request.fingerprint in db.coalesce {
      var existing := db.coalesce[request.fingerprint];
      JoinAdds(db, request, existing, draw);
      JoinMeans(db, request, existing, draw);
      JoinedIsIn(db, request, draw, JoinScript(db, request, existing, draw));
    } else if |db.queue| < maxQueued {
      NewMeans(db, request, draw, maxQueued);
      NewIsIn(db, request, draw, CreateScript(db, request, draw, maxQueued));
    } else {
      FullMeans(db, request, draw, maxQueued);
    }
  }

  lemma FullMeans(db: Db, request: CreateRequest, draw: Draw, maxQueued: int)
    requires |db.queue| >= maxQueued
    ensures CreateScript(db, request, draw, maxQueued) == CreateReply(db, "", Full)
  {
  }

  lemma JoinedIsIn(db: Db, request: CreateRequest, draw: Draw, reply: CreateReply)
    requires JoinMeaning(db, request, draw, reply)
    ensures reply.id in reply.db.jobs && reply.db.jobs[reply.id].fingerprint == request.fingerprint
    ensures request.key in SubscribersOf(reply.db.subscribers, reply.id)
  {
  }

  lemma NewIsIn(db: Db, request: CreateRequest, draw: Draw, reply: CreateReply)
    requires NewMeaning(db, request, draw, reply)
    ensures reply.id in reply.db.jobs && reply.db.jobs[reply.id].fingerprint == request.fingerprint
    ensures request.key in SubscribersOf(reply.db.subscribers, reply.id)
  {
  }
}
