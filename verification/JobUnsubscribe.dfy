/** The unsubscribe script keeps the invariant and does what its reply says. */
module JobUnsubscribe {
  import opened JobTypes
  import opened JobScripts
  import opened JobInvariants

  /** The fingerprint read before the script is the job's own. */
  ghost predicate LeaveKnown(db: Db, leave: Leave) {
    leave.id in db.jobs && db.jobs[leave.id].fingerprint == leave.fingerprint
  }

  /** The departing key was the only subscriber of a job that is still running. */
  ghost predicate LastToLeave(db: Db, leave: Leave) {
    SubscribersOf(db.subscribers, leave.id) == {leave.key} && Live(db.jobs, leave.id)
  }

  /** The job after a subscriber has gone. */
  function JobWithout(job: Job, remaining: nat, now: int): Job {
    job.(subscriberCount := remaining, updatedAt := now)
  }

  /** A subscriber goes: its entry and its place in the set, and the job becomes the given one. */
  ghost predicate GoneMeaning(db: Db, leave: Leave, job: Job, after: Db) {
    && after.jobs == db.jobs[leave.id := job]
    && after.subscribers == db.subscribers[leave.id := SubscribersOf(db.subscribers, leave.id) - {leave.key}]
    && after.idempotency == db.idempotency - {(leave.fingerprint, leave.key)}
    && after.queue == db.queue && after.processing == db.processing
  }

  /** Others stay, or the job had ended: the count and the time are all that changes besides. */
  ghost predicate StayMeaning(db: Db, leave: Leave, now: int, after: Db)
    requires leave.id in db.jobs && leave.key in SubscribersOf(db.subscribers, leave.id)
  {
    && GoneMeaning(
         db, leave, JobWithout(db.jobs[leave.id], |SubscribersOf(db.subscribers, leave.id)| - 1, now), after)
    && after.cancelFlags == db.cancelFlags && after.coalesce == db.coalesce && after.events == db.events
  }

  /** The last subscriber of a live job: it is cancelled, with a flag and an event, and its fingerprint released. */
  ghost predicate LastMeaning(db: Db, leave: Leave, eventId: string, now: int, after: Db)
    requires leave.id in db.jobs
  {
    && GoneMeaning(db, leave, JobWithout(db.jobs[leave.id], 0, now).(state := Cancelled, progress := 100), after)
    && after.cancelFlags == db.cancelFlags + {leave.id}
    && after.coalesce == db.coalesce - {leave.fingerprint}
    && after.events == db.events[leave.id :=
         LogOf(db.events, leave.id) + [Event(eventId, leave.id, Cancelled, LEFT_MESSAGE, now, 100)]]
  }

  /** What a caller finds: a missing job and a stranger change nothing, a subscriber goes, and the last one of a
      live job cancels it. */
  ghost predicate LeaveMeaning(db: Db, leave: Leave, eventId: string, now: int, reply: LeaveReply) {
    if leave.id !in db.jobs then
      reply == LeaveReply(db, JobMissing)
    else if leave.key !in SubscribersOf(db.subscribers, leave.id) then
      reply == LeaveReply(db, NoSubscription)
    else if LastToLeave(db, leave) then
      reply.outcome == Left(0, Cancelled) && LastMeaning(db, leave, eventId, now, reply.db)
    else
      && reply.outcome == Left(|SubscribersOf(db.subscribers, leave.id)| - 1, db.jobs[leave.id].state)
      && StayMeaning(db, leave, now, reply.db)
  }

  /** A key has an idempotency entry naming the job exactly when it subscribes to it,
      so the branch that finds an entry without a subscription is never taken. */
  lemma SubscribedByEntry(db: Db, leave: Leave)
    requires DbInv(db)
    requires LeaveKnown(db, leave)
    ensures Names(db.idempotency, (leave.fingerprint, leave.key), leave.id)
            <==> leave.key in SubscribersOf(db.subscribers, leave.id)
  {
  }

  /** The subscriber set loses one key and the job's count follows. */
  lemma RemovalKeeps(db: Db, leave: Leave, job: Job)
    requires DbInv(db)
    requires LeaveKnown(db, leave)
    requires leave.key in SubscribersOf(db.subscribers, leave.id)
    requires job.fingerprint == leave.fingerprint
    requires CountExact(job, SubscribersOf(db.subscribers, leave.id) - {leave.key})
    ensures var keys := SubscribersOf(db.subscribers, leave.id) - {leave.key};
            var jobs, subscribers := db.jobs[leave.id := job], db.subscribers[leave.id := keys];
            && SubscriptionsExact(jobs, subscribers, db.idempotency - {(leave.fingerprint, leave.key)})
            && CountsExact(jobs, subscribers)
  {
    var keys := SubscribersOf(db.subscribers, leave.id) - {leave.key};
    CountsUpdate(db.jobs, db.subscribers, leave.id, job, keys);
    SubscriptionsSame(db.jobs, db.subscribers, db.idempotency, leave.id, job);
    SubscriptionsRemove(db.jobs[leave.id := job], db.subscribers, db.idempotency, leave.id, leave.key);
  }

  /** The last subscriber of a live job goes: the job is cancelled, flagged and released. */
  lemma LastLeaveMeans(db: Db, leave: Leave, eventId: string, now: int)
    requires DbInv(db) && LeaveKnown(db, leave) && LastToLeave(db, leave)
    ensures LeaveMeaning(db, leave, eventId, now, UnsubscribeScript(db, leave, eventId, now))
  {
    hide DbInv, LogTrue, LogOf, SubscribersOf;
    SubscribedByEntry(db, leave);
    FactsOf(db, leave.id);
    assert SubscribersOf(db.subscribers, leave.id) - {leave.key} == {};
  }

  /** A subscriber goes and others stay, or the job was already terminal. */
  lemma PartialLeaveMeans(db: Db, leave: Leave, eventId: string, now: int)
    requires DbInv(db) && LeaveKnown(db, leave)
    requires leave.key in SubscribersOf(db.subscribers, leave.id) && !LastToLeave(db, leave)
    ensures LeaveMeaning(db, leave, eventId, now, UnsubscribeScript(db, leave, eventId, now))
  {
    hide DbInv, LogTrue, LogOf, SubscribersOf;
    SubscribedByEntry(db, leave);
    FactsOf(db, leave.id);
    var keys := SubscribersOf(db.subscribers, leave.id);
    assert keys - {leave.key} == {} ==> keys == {leave.key};
    assert |keys - {leave.key}| == |keys| - 1;
  }

  lemma UnsubscribeMeans(db: Db, leave: Leave, eventId: string, now: int)
    requires DbInv(db)
    requires leave.id in db.jobs ==> LeaveKnown(db, leave)
    ensures LeaveMeaning(db, leave, eventId, now, UnsubscribeScript(db, leave, eventId, now))
  {
    hide DbInv;
    if leave.id in db.jobs {
      SubscribedByEntry(db, leave);
      if LastToLeave(db, leave) {
        LastLeaveMeans(db, leave, eventId, now);
      } else if leave.key in SubscribersOf(db.subscribers, leave.id) {
        PartialLeaveMeans(db, leave, eventId, now);
      }
    }
  }

  lemma PartialLeaveKeeps(db: Db, leave: Leave, eventId: string, now: int)
    requires DbInv(db)
    requires LeaveKnown(db, leave)
    requires leave.key in SubscribersOf(db.subscribers, leave.id) && !LastToLeave(db, leave)
    ensures DbInv(UnsubscribeScript(db, leave, eventId, now).db)
    ensures JobsKept(db, UnsubscribeScript(db, leave, eventId, now).db)
  {
    hide DbInv, JobsKept, UnsubscribeScript, LogOf, StayMeaning;
    PartialLeaveMeans(db, leave, eventId, now);
    StayKeeps(db, leave, now, UnsubscribeScript(db, leave, eventId, now).db);
  }

  lemma StayKeeps(db: Db, leave: Leave, now: int, after: Db)
    requires DbInv(db) && LeaveKnown(db, leave) && leave.key in SubscribersOf(db.subscribers, leave.id)
    requires !LastToLeave(db, leave) && StayMeaning(db, leave, now, after)
    ensures DbInv(after) && JobsKept(db, after)
  {
    hide CoalesceExact, SubscriptionsExact, CountsExact, LogsTrue, LogTrue, CancelFlagsSound, JobsKept;
    FactsOf(db, leave.id);
    var keys := SubscribersOf(db.subscribers, leave.id);
    assert keys - {leave.key} == {} ==> keys == {leave.key};
    assert |keys - {leave.key}| == |keys| - 1;
    var job := after.jobs[leave.id];
    RemovalKeeps(db, leave, job);
    CoalesceSame(db.jobs, db.coalesce, leave.id, job);
    LogStays(LogOf(db.events, leave.id), db.jobs[leave.id], job);
    LogsSame(db.jobs, db.events, leave.id, job);
    CancelFlagsKept(db.jobs, after.cancelFlags, leave.id, job);
    OneJobKept(db, after, leave.id);
  }

  lemma LogStays(log: seq<Event>, before: Job, after: Job)
    requires LogTrue(log, before)
    requires after.jobId == before.jobId && after.state == before.state && after.progress == before.progress
    ensures LogTrue(log, after)
  {
  }

  lemma LastLeaveKeeps(db: Db, leave: Leave, eventId: string, now: int)
    requires DbInv(db)
    requires LeaveKnown(db, leave) && LastToLeave(db, leave)
    ensures DbInv(UnsubscribeScript(db, leave, eventId, now).db)
    ensures JobsKept(db, UnsubscribeScript(db, leave, eventId, now).db)
  {
    hide DbInv, JobsKept, UnsubscribeScript, LogOf, LastMeaning;
    LastLeaveMeans(db, leave, eventId, now);
    LastKeeps(db, leave, eventId, now, UnsubscribeScript(db, leave, eventId, now).db);
  }

  lemma LastKeeps(db: Db, leave: Leave, eventId: string, now: int, after: Db)
    requires DbInv(db) && LeaveKnown(db, leave) && LastToLeave(db, leave)
    requires LastMeaning(db, leave, eventId, now, after)
    ensures DbInv(after) && JobsKept(db, after)
  {
    hide CoalesceExact, SubscriptionsExact, CountsExact, LogsTrue, LogTrue, CancelFlagsSound, JobsKept;
    FactsOf(db, leave.id);
    var before, job := db.jobs[leave.id], after.jobs[leave.id];
    var event := Event(eventId, leave.id, Cancelled, LEFT_MESSAGE, now, 100);
    var log := LogOf(db.events, leave.id) + [event];
    assert SubscribersOf(db.subscribers, leave.id) - {leave.key} == {};
    RemovalKeeps(db, leave, job);
    CoalesceRelease(db.jobs, db.coalesce, leave.id, job);
    LogGrows(LogOf(db.events, leave.id), before, event, job);
    LogsUpdate(db.jobs, db.events, leave.id, job, log);
    CancelFlagsKept(db.jobs, db.cancelFlags, leave.id, job);
    OneJobKept(db, after, leave.id);
  }

  /** Every departure keeps the invariant and undoes nothing. */
  lemma UnsubscribeKeeps(db: Db, leave: Leave, eventId: string, now: int)
    requires DbInv(db)
    requires LeaveKnown(db, leave)
    ensures DbInv(UnsubscribeScript(db, leave, eventId, now).db)
    ensures JobsKept(db, UnsubscribeScript(db, leave, eventId, now).db)
  {
    hide DbInv, JobsKept, UnsubscribeScript;
    UnsubscribeMeans(db, leave, eventId, now);
    if leave.key !in SubscribersOf(db.subscribers, leave.id) {
      OneJobKept(db, db, leave.id);
    } else if LastToLeave(db, leave) {
      LastLeaveKeeps(db, leave, eventId, now);
    } else {
      PartialLeaveKeeps(db, leave, eventId, now);
    }
  }
}
