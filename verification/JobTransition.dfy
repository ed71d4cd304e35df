/** The transition script keeps the invariant and does what its reply says. */
module JobTransition {
  import opened JobTypes
  import opened JobScripts
  import opened JobInvariants

  /** The arguments of a write that its caller has already checked against the job it read. */
  ghost predicate WriteKnown(db: Db, write: Write) {
    && write.id in db.jobs
    && db.jobs[write.id].fingerprint == write.fingerprint
    && write.state != Queued
    && 0 <= write.progress <= 100
  }

  function EventOfWrite(write: Write): Event {
    Event(write.eventId, write.id, write.state, write.message, write.now, write.progress)
  }

  /** A missing, a cancelled and an ended job refuse, and nothing changes. A live one takes what is written, whatever
      was read before: its record, one event, and, when the written state ends it, the release of its fingerprint. */
  ghost predicate TransitionMeaning(db: Db, write: Write, reply: TransitionReply) {
    if write.id !in db.jobs then
      reply == TransitionReply(db, Missing)
    else if db.jobs[write.id].state == Cancelled then
      reply == TransitionReply(db, AlreadyCancelled)
    else if db.jobs[write.id].state.Terminal() then
      reply == TransitionReply(db, AlreadyTerminal)
    else
      && reply.outcome == Moved
      && reply.db.jobs == db.jobs[write.id := db.jobs[write.id].(
           state := write.state, updatedAt := write.now, progress := write.progress, result := write.result)]
      && reply.db.events == db.events[write.id := LogOf(db.events, write.id) + [EventOfWrite(write)]]
      && reply.db.coalesce == (if write.state.Terminal() then db.coalesce - {write.fingerprint} else db.coalesce)
      && reply.db.subscribers == db.subscribers
      && reply.db.idempotency == db.idempotency
      && reply.db.cancelFlags == db.cancelFlags
      && reply.db.queue == db.queue
      && reply.db.processing == db.processing
  }

  lemma TransitionMeans(db: Db, write: Write)
    requires DbInv(db)
    requires write.id in db.jobs ==> db.jobs[write.id].fingerprint == write.fingerprint
    ensures TransitionMeaning(db, write, TransitionScript(db, write))
  {
    hide DbInv, LogTrue, LogOf;
    if write.id in db.jobs {
      FactsOf(db, write.id);
    }
  }

  lemma MovePartsKept(db: Db, write: Write, after: Db)
    requires DbInv(db) && WriteKnown(db, write) && Live(db.jobs, write.id)
    requires TransitionMeaning(db, write, TransitionReply(after, Moved))
    ensures DbInv(after)
    ensures JobKept(
              db.jobs[write.id], LogOf(db.events, write.id), after.jobs[write.id], LogOf(after.events, write.id))
  {
    hide CoalesceExact, SubscriptionsExact, CountsExact, LogsTrue, LogTrue, CancelFlagsSound;
    FactsOf(db, write.id);
    var before, job := db.jobs[write.id], after.jobs[write.id];
    LogGrows(LogOf(db.events, write.id), before, EventOfWrite(write), job);
    LogsUpdate(db.jobs, db.events, write.id, job, LogOf(db.events, write.id) + [EventOfWrite(write)]);
    CountsSame(db.jobs, db.subscribers, write.id, job);
    SubscriptionsSame(db.jobs, db.subscribers, db.idempotency, write.id, job);
    if write.state.Terminal() {
      CoalesceRelease(db.jobs, db.coalesce, write.id, job);
    } else {
      CoalesceSame(db.jobs, db.coalesce, write.id, job);
    }
    CancelFlagsKept(db.jobs, db.cancelFlags, write.id, job);
  }

  /** Every write keeps the invariant and undoes nothing. */
  lemma TransitionKeeps(db: Db, write: Write)
    requires DbInv(db)
    requires WriteKnown(db, write)
    ensures DbInv(TransitionScript(db, write).db)
    ensures JobsKept(db, TransitionScript(db, write).db)
  {
    hide DbInv, JobsKept, TransitionScript, JobKept;
    TransitionMeans(db, write);
    var after := TransitionScript(db, write).db;
    if Live(db.jobs, write.id) {
      MovePartsKept(db, write, after);
    } else {
      JobKeptRefl(db.jobs[write.id], LogOf(db.events, write.id));
    }
    OneJobKept(db, after, write.id);
  }

  lemma JobKeptRefl(job: Job, log: seq<Event>)
    ensures JobKept(job, log, job, log)
  {
  }
}
