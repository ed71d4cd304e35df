/** What every script keeps. The invariant has six parts, each about the few keys it relates,
    and each part comes with the updates that keep it. */
module JobInvariants {
  import opened JobTypes
  import opened JobScripts

  type Jobs = map<JobId, Job>
  type Subscribers = map<JobId, set<SubscriberKey>>
  type Logs = map<JobId, seq<Event>>
  type Slot = (Fingerprint, SubscriberKey)

  ghost predicate Live(jobs: Jobs, id: JobId) {
    id in jobs && !jobs[id].state.Terminal()
  }

  // ----- the parts -----

  /** The hash of a job carries its own identifier, and no set, log or flag exists without its job. */
  ghost predicate Named(db: Db) {
    && (forall id <- db.jobs :: db.jobs[id].jobId == id)
    && db.subscribers.Keys <= db.jobs.Keys
    && db.events.Keys <= db.jobs.Keys
    && db.cancelFlags <= db.jobs.Keys
  }

  /** The coalesce map is exactly the map from a fingerprint to its live job. */
  ghost predicate CoalesceExact(jobs: Jobs, coalesce: map<Fingerprint, JobId>) {
    && (forall id <- jobs :: !jobs[id].state.Terminal() ==>
          jobs[id].fingerprint in coalesce && coalesce[jobs[id].fingerprint] == id)
    && (forall finger <- coalesce :: Live(jobs, coalesce[finger]) && jobs[coalesce[finger]].fingerprint == finger)
  }

  /** A job's subscribers are exactly the keys whose idempotency entry names it. */
  ghost predicate SubscriptionsExact(jobs: Jobs, subscribers: Subscribers, idempotency: map<Slot, JobId>) {
    && (forall slot <- idempotency ::
          && idempotency[slot] in jobs
          && jobs[idempotency[slot]].fingerprint == slot.0
          && slot.1 in SubscribersOf(subscribers, idempotency[slot]))
    && (forall id, key :: id in jobs && key in SubscribersOf(subscribers, id) ==>
          Names(idempotency, (jobs[id].fingerprint, key), id))
  }

  ghost predicate Names(idempotency: map<Slot, JobId>, slot: Slot, id: JobId) {
    slot in idempotency && idempotency[slot] == id
  }

  /** The stored count is the size of the set, and only a terminal job can be without subscribers. */
  ghost predicate CountsExact(jobs: Jobs, subscribers: Subscribers) {
    forall id <- jobs :: CountExact(jobs[id], SubscribersOf(subscribers, id))
  }

  ghost predicate CountExact(job: Job, keys: set<SubscriberKey>) {
    job.subscriberCount == |keys| && (keys == {} ==> job.state.Terminal())
  }

  /** A cancel flag is only ever set for a cancelled job. */
  ghost predicate CancelFlagsSound(jobs: Jobs, cancelFlags: set<JobId>) {
    forall id <- cancelFlags :: id in jobs && jobs[id].state == Cancelled
  }

  /** One log tells the truth about its job: it starts queued, only its last event may be terminal,
      and the last event has the stored state and progress. */
  ghost predicate LogTrue(log: seq<Event>, job: Job) {
    && log != []
    && log[0].state == Queued
    && (forall i :: 0 <= i < |log| ==> log[i].jobId == job.jobId && 0 <= log[i].progress <= 100)
    && (forall i :: 0 <= i < |log| - 1 ==> !log[i].state.Terminal())
    && log[|log| - 1].state == job.state
    && log[|log| - 1].progress == job.progress
  }

  ghost predicate LogsTrue(jobs: Jobs, events: Logs) {
    forall id <- jobs :: LogTrue(LogOf(events, id), jobs[id])
  }

  ghost predicate DbInv(db: Db) {
    && Named(db)
    && CoalesceExact(db.jobs, db.coalesce)
    && SubscriptionsExact(db.jobs, db.subscribers, db.idempotency)
    && CountsExact(db.jobs, db.subscribers)
    && CancelFlagsSound(db.jobs, db.cancelFlags)
    && LogsTrue(db.jobs, db.events)
  }

  /** What no script ever undoes: identity, fingerprint and payload are fixed, logs only grow,
      and a terminal job keeps its state, progress, result and log. */
  ghost predicate JobKept(before: Job, beforeLog: seq<Event>, after: Job, afterLog: seq<Event>) {
    && after.jobId == before.jobId
    && after.fingerprint == before.fingerprint
    && after.payload == before.payload
    && after.kind == before.kind
    && after.createdAt == before.createdAt
    && beforeLog <= afterLog
    && (before.state.Terminal() ==>
          && after.state == before.state
          && after.progress == before.progress
          && after.result == before.result
          && afterLog == beforeLog)
  }

  ghost predicate JobsKept(before: Db, after: Db) {
    forall id <- before.jobs ::
      id in after.jobs && JobKept(before.jobs[id], LogOf(before.events, id), after.jobs[id], LogOf(after.events, id))
  }

  /** The parts of the invariant that speak of one job. */
  lemma FactsOf(db: Db, id: JobId)
    requires DbInv(db)
    requires id in db.jobs
    ensures db.jobs[id].jobId == id
    ensures CountExact(db.jobs[id], SubscribersOf(db.subscribers, id))
    ensures LogTrue(LogOf(db.events, id), db.jobs[id])
    ensures id in db.cancelFlags ==> db.jobs[id].state == Cancelled
    ensures !db.jobs[id].state.Terminal() ==>
              db.jobs[id].fingerprint in db.coalesce && db.coalesce[db.jobs[id].fingerprint] == id
  {
  }

  // ----- the updates that keep each part -----

  lemma CoalesceSame(jobs: Jobs, coalesce: map<Fingerprint, JobId>, id: JobId, job: Job)
    requires CoalesceExact(jobs, coalesce)
    requires id in jobs && jobs[id].fingerprint == job.fingerprint
    requires jobs[id].state.Terminal() == job.state.Terminal()
    ensures CoalesceExact(jobs[id := job], coalesce)
  {
  }

  lemma CoalesceRelease(jobs: Jobs, coalesce: map<Fingerprint, JobId>, id: JobId, job: Job)
    requires CoalesceExact(jobs, coalesce)
    requires id in jobs && jobs[id].fingerprint == job.fingerprint
    requires job.state.Terminal()
    ensures CoalesceExact(jobs[id := job], Release(coalesce, job.fingerprint, id))
  {
  }

  lemma CoalesceNew(jobs: Jobs, coalesce: map<Fingerprint, JobId>, id: JobId, job: Job)
    requires CoalesceExact(jobs, coalesce)
    requires id !in jobs && job.fingerprint !in coalesce
    requires !job.state.Terminal()
    ensures CoalesceExact(jobs[id := job], coalesce[job.fingerprint := id])
  {
  }

  lemma SubscriptionsSame(jobs: Jobs, subscribers: Subscribers, idempotency: map<Slot, JobId>, id: JobId, job: Job)
    requires SubscriptionsExact(jobs, subscribers, idempotency)
    requires id in jobs && jobs[id].fingerprint == job.fingerprint
    ensures SubscriptionsExact(jobs[id := job], subscribers, idempotency)
  {
  }

  lemma SubscriptionsAdd(
      jobs: Jobs, subscribers: Subscribers, idempotency: map<Slot, JobId>, id: JobId, key: SubscriberKey)
    requires SubscriptionsExact(jobs, subscribers, idempotency)
    requires id in jobs && (jobs[id].fingerprint, key) !in idempotency
    ensures SubscriptionsExact(
              jobs, subscribers[id := SubscribersOf(subscribers, id) + {key}],
              idempotency[(jobs[id].fingerprint, key) := id])
  {
  }

  lemma SubscriptionsRemove(
      jobs: Jobs, subscribers: Subscribers, idempotency: map<Slot, JobId>, id: JobId, key: SubscriberKey)
    requires SubscriptionsExact(jobs, subscribers, idempotency)
    requires id in jobs && key in SubscribersOf(subscribers, id)
    ensures SubscriptionsExact(
              jobs, subscribers[id := SubscribersOf(subscribers, id) - {key}],
              idempotency - {(jobs[id].fingerprint, key)})
  {
    assert Names(idempotency, (jobs[id].fingerprint, key), id);
  }

  lemma SubscriptionsNew(jobs: Jobs, subscribers: Subscribers, idempotency: map<Slot, JobId>, id: JobId, job: Job)
    requires SubscriptionsExact(jobs, subscribers, idempotency)
    requires id !in jobs && SubscribersOf(subscribers, id) == {}
    ensures SubscriptionsExact(jobs[id := job], subscribers, idempotency)
  {
  }

  lemma CountsUpdate(jobs: Jobs, subscribers: Subscribers, id: JobId, job: Job, keys: set<SubscriberKey>)
    requires CountsExact(jobs, subscribers)
    requires CountExact(job, keys)
    ensures CountsExact(jobs[id := job], subscribers[id := keys])
  {
  }

  lemma CountsSame(jobs: Jobs, subscribers: Subscribers, id: JobId, job: Job)
    requires CountsExact(jobs, subscribers)
    requires CountExact(job, SubscribersOf(subscribers, id))
    ensures CountsExact(jobs[id := job], subscribers)
  {
  }

  lemma LogsSame(jobs: Jobs, events: Logs, id: JobId, job: Job)
    requires LogsTrue(jobs, events)
    requires LogTrue(LogOf(events, id), job)
    ensures LogsTrue(jobs[id := job], events)
  {
  }

  lemma LogsUpdate(jobs: Jobs, events: Logs, id: JobId, job: Job, log: seq<Event>)
    requires LogsTrue(jobs, events)
    requires LogTrue(log, job)
    ensures LogsTrue(jobs[id := job], events[id := log])
  {
  }

  lemma CancelFlagsKept(jobs: Jobs, cancelFlags: set<JobId>, id: JobId, job: Job)
    requires CancelFlagsSound(jobs, cancelFlags)
    requires id in cancelFlags ==> job.state == Cancelled
    ensures CancelFlagsSound(jobs[id := job], cancelFlags)
    ensures job.state == Cancelled ==> CancelFlagsSound(jobs[id := job], cancelFlags + {id})
  {
  }

  /** A live job's log may grow by one event that carries the job's new state and progress. */
  lemma LogGrows(log: seq<Event>, before: Job, event: Event, after: Job)
    requires LogTrue(log, before)
    requires !before.state.Terminal()
    requires event.jobId == before.jobId == after.jobId
    requires event.state == after.state && event.progress == after.progress && 0 <= event.progress <= 100
    ensures LogTrue(log + [event], after)
    ensures log <= log + [event]
  {
  }

  lemma FirstLog(log: seq<Event>, job: Job)
    requires |log| == 1
    requires job.state == Queued && log[0].state == Queued
    requires log[0].jobId == job.jobId && log[0].progress == job.progress == 0
    ensures LogTrue(log, job)
  {
  }

  /** One job changes as JobKept allows and every other job is the one it was. */
  lemma OneJobKept(before: Db, after: Db, id: JobId)
    requires id in before.jobs ==>
        && id in after.jobs
        && JobKept(before.jobs[id], LogOf(before.events, id), after.jobs[id], LogOf(after.events, id))
    requires forall other <- before.jobs :: other != id ==>
        other in after.jobs && after.jobs[other] == before.jobs[other]
        && LogOf(after.events, other) == LogOf(before.events, other)
    ensures JobsKept(before, after)
  {
  }
}
