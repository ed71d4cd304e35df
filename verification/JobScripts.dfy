/** The keys one queue owns in Redis and the three Lua scripts as functions from one store to the next.
    Each script runs atomically, so one function call is one step of any interleaving.
    Expiry is not part of these functions: a key stays until a script deletes it. */
module JobScripts {
  import opened JobTypes

  datatype Db = Db(
    jobs: map<JobId, Job>,
    subscribers: map<JobId, set<SubscriberKey>>,
    events: map<JobId, seq<Event>>,
    coalesce: map<Fingerprint, JobId>,
    idempotency: map<(Fingerprint, SubscriberKey), JobId>,
    cancelFlags: set<JobId>,
    queue: seq<JobId>,
    processing: seq<JobId>)

  const EMPTY_DB := Db(map[], map[], map[], map[], map[], {}, [], [])

  /** A missing Redis set is an empty set. */
  function SubscribersOf(subscribers: map<JobId, set<SubscriberKey>>, id: JobId): set<SubscriberKey> {
    if id in subscribers then subscribers[id] else {}
  }

  /** A missing Redis list is an empty list. */
  function LogOf(events: map<JobId, seq<Event>>, id: JobId): seq<Event> {
    if id in events then events[id] else []
  }

  function AppendEvent(db: Db, event: Event, id: JobId): Db {
    db.(events := db.events[id := LogOf(db.events, id) + [event]])
  }

  const JOINED_MESSAGE := "Joined an existing coalesced job."
  const QUEUED_MESSAGE := "Job queued."
  const LEFT_MESSAGE := "Job cancelled after the final subscriber left."

  // ----- create or join -----

  datatype CreateOutcome = Created | Joined | Idempotent | Full

  datatype CreateReply = CreateReply(db: Db, id: JobId, outcome: CreateOutcome)

  /** The identifiers and the time drawn by the caller before the script runs. */
  datatype Draw = Draw(jobId: JobId, eventId: string, now: int)

  function CreateOrJoinScript(db: Db, request: CreateRequest, draw: Draw, maxQueued: int): CreateReply {
    var slot := (request.fingerprint, request.key);
    if slot in db.idempotency then
      CreateReply(db, db.idempotency[slot], Idempotent)
    else if request.fingerprint in db.coalesce then
      var existing := db.coalesce[request.fingerprint];
      if existing in db.jobs && !db.jobs[existing].state.Terminal() then
        JoinScript(db, request, existing, draw)
      else
        CreateScript(db.(coalesce := db.coalesce - {request.fingerprint}), request, draw, maxQueued)
    else
      CreateScript(db, request, draw, maxQueued)
  }

  function JoinScript(db: Db, request: CreateRequest, existing: JobId, draw: Draw): CreateReply
    requires existing in db.jobs
  {
    var added := request.key !in SubscribersOf(db.subscribers, existing);
    var subscribers := SubscribersOf(db.subscribers, existing) + {request.key};
    var job := db.jobs[existing].(subscriberCount := |subscribers|, updatedAt := draw.now);
    var joined := db.(
      subscribers := db.subscribers[existing := subscribers],
      jobs := db.jobs[existing := job],
      idempotency := db.idempotency[(request.fingerprint, request.key) := existing]);
    if added then
      var event := Event(draw.eventId, existing, job.state, JOINED_MESSAGE, draw.now, job.progress);
      CreateReply(AppendEvent(joined, event, existing), existing, Joined)
    else
      CreateReply(joined, existing, Idempotent)
  }

  function CreateScript(db: Db, request: CreateRequest, draw: Draw, maxQueued: int): CreateReply {
    if |db.queue| >= maxQueued then
      CreateReply(db, "", Full)
    else
      var id := draw.jobId;
      var job := Job(id, request.kind, Queued, 1, draw.now, draw.now, "", request.payload, request.fingerprint, 0);
      var stored := db.(
        jobs := db.jobs[id := job],
        subscribers := db.subscribers[id := SubscribersOf(db.subscribers, id) + {request.key}],
        coalesce := db.coalesce[request.fingerprint := id],
        idempotency := db.idempotency[(request.fingerprint, request.key) := id],
        queue := db.queue + [id]);
      CreateReply(AppendEvent(stored, Event(draw.eventId, id, Queued, QUEUED_MESSAGE, draw.now, 0), id), id, Created)
  }

  // ----- unsubscribe -----

  datatype LeaveOutcome = Left(remaining: nat, state: State) | JobMissing | NoSubscription

  datatype LeaveReply = LeaveReply(db: Db, outcome: LeaveOutcome)

  /** What the caller knows before the script runs; the fingerprint comes from an earlier read of the job. */
  datatype Leave = Leave(id: JobId, key: SubscriberKey, fingerprint: Fingerprint)

  function UnsubscribeScript(db: Db, leave: Leave, eventId: string, now: int): LeaveReply {
    var slot := (leave.fingerprint, leave.key);
    if leave.id !in db.jobs then
      LeaveReply(db, JobMissing)
    else if slot !in db.idempotency || db.idempotency[slot] != leave.id then
      LeaveReply(db, NoSubscription)
    else if leave.key !in SubscribersOf(db.subscribers, leave.id) then
      LeaveReply(db.(idempotency := db.idempotency - {slot}), NoSubscription)
    else
      var subscribers := SubscribersOf(db.subscribers, leave.id) - {leave.key};
      var job := db.jobs[leave.id].(subscriberCount := |subscribers|, updatedAt := now);
      var removed := db.(
        subscribers := db.subscribers[leave.id := subscribers],
        idempotency := db.idempotency - {slot},
        jobs := db.jobs[leave.id := job]);
      if subscribers == {} && !job.state.Terminal() then
        LeaveReply(CancelScript(removed, leave, eventId, now), Left(0, Cancelled))
      else
        LeaveReply(removed, Left(|subscribers|, job.state))
  }

  function CancelScript(db: Db, leave: Leave, eventId: string, now: int): Db
    requires leave.id in db.jobs
  {
    var cancelled := db.(
      jobs := db.jobs[leave.id := db.jobs[leave.id].(state := Cancelled, updatedAt := now, progress := 100)],
      cancelFlags := db.cancelFlags + {leave.id},
      coalesce := Release(db.coalesce, leave.fingerprint, leave.id));
    AppendEvent(cancelled, Event(eventId, leave.id, Cancelled, LEFT_MESSAGE, now, 100), leave.id)
  }

  /** Delete the coalesce entry of a fingerprint, but only if it still names the given job. */
  function Release(coalesce: map<Fingerprint, JobId>, fingerprint: Fingerprint, id: JobId): map<Fingerprint, JobId> {
    if fingerprint in coalesce && coalesce[fingerprint] == id then coalesce - {fingerprint} else coalesce
  }

  // ----- transition -----

  datatype TransitionOutcome = Moved | Missing | AlreadyCancelled | AlreadyTerminal

  datatype TransitionReply = TransitionReply(db: Db, outcome: TransitionOutcome)

  /** The write half of a transition; the fingerprint comes from the earlier read of the job. */
  datatype Write = Write(
    id: JobId, fingerprint: Fingerprint, state: State, message: string, progress: int, result: string,
    eventId: string, now: int)

  function TransitionScript(db: Db, write: Write): TransitionReply {
    if write.id !in db.jobs then
      TransitionReply(db, Missing)
    else if db.jobs[write.id].state == Cancelled || write.id in db.cancelFlags then
      TransitionReply(db, AlreadyCancelled)
    else if db.jobs[write.id].state.Terminal() then
      TransitionReply(db, AlreadyTerminal)
    else
      var job := db.jobs[write.id].(
        state := write.state, updatedAt := write.now, progress := write.progress, result := write.result);
      var moved := db.(
        jobs := db.jobs[write.id := job],
        coalesce := if write.state.Terminal() then Release(db.coalesce, write.fingerprint, write.id) else db.coalesce);
      var event := Event(write.eventId, write.id, write.state, write.message, write.now, write.progress);
      TransitionReply(AppendEvent(moved, event, write.id), Moved)
  }

  // ----- the two lists -----

  /** BRPOPLPUSH: the newest end of the queue goes to the front of the processing list. */
  function ClaimStep(db: Db): (Db, JobId)
    requires db.queue != []
  {
    var last := |db.queue| - 1;
    var id := db.queue[last];
    (db.(queue := db.queue[..last], processing := [id] + db.processing), id)
  }

  /** LREM with count 1: the first occurrence goes. */
  function RemoveFirst(list: seq<JobId>, id: JobId): seq<JobId> {
    if list == [] then []
    else if list[0] == id then list[1..]
    else [list[0]] + RemoveFirst(list[1..], id)
  }

  function AckStep(db: Db, id: JobId): Db {
    db.(processing := RemoveFirst(db.processing, id))
  }

  /** The RPOP of Recover. */
  function PopStep(db: Db): (Db, JobId)
    requires db.processing != []
  {
    var last := |db.processing| - 1;
    (db.(processing := db.processing[..last]), db.processing[last])
  }

  /** The LPUSH of Recover. */
  function PushStep(db: Db, id: JobId): Db {
    db.(queue := [id] + db.queue)
  }
}
