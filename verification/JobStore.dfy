/** The job store as an object: the scripts change its keys in place, and the Go methods call them. */
module JobStore {
  import opened JobTypes
  import opened JobScripts
  import opened JobInvariants
  import opened JobCreate
  import opened JobUnsubscribe
  import opened JobTransition
  import opened JobSafety

  datatype Error =
    | NotFound
    | QueueFull
    | NoJobAvailable
    | SubscriptionNotFound
    | JobCancelled
    | TerminalJob
    | InvalidInput

  datatype Result<+T> = Ok(value: T) | Err(error: Error)

  const DEFAULT_MAX_QUEUED := 256

  // ----- the checks before anything is sent -----

  predicate IsHexDigit(c: char) {
    '0' <= c <= '9' || 'a' <= c <= 'f' || 'A' <= c <= 'F'
  }

  predicate IsAlphanumeric(c: char) {
    'A' <= c <= 'Z' || 'a' <= c <= 'z' || '0' <= c <= '9'
  }

  predicate ValidKey(key: SubscriberKey) {
    && 8 <= |key| <= 128
    && IsAlphanumeric(key[0])
    && forall c <- key :: IsAlphanumeric(c) || c in {'.', '_', ':', '-'}
  }

  /** Keys are 8 to 128 characters long, of letters, digits and four marks, and start with no mark; hexadecimal digits
      are the sixteen, in either case. */
  lemma KeysAreWritten(key: SubscriberKey, c: char)
    ensures ValidKey(key) <==>
              && 8 <= |key| <= 128 && key[0] !in {'.', '_', ':', '-'}
              && forall d <- key ::
                   || 65 <= d as int <= 90 || 97 <= d as int <= 122 || 48 <= d as int <= 57
                   || d as int in {45, 46, 58, 95}
    ensures IsHexDigit(c) <==> 48 <= c as int <= 57 || 65 <= c as int <= 70 || 97 <= c as int <= 102
  {
    assert |key| > 0 ==> key[0] in key;
  }

  predicate ValidRequest(request: CreateRequest, validJson: string -> bool) {
    && |request.fingerprint| == 64 && (forall c <- request.fingerprint :: IsHexDigit(c))
    && ValidKey(request.key)
    && request.payload != "" && validJson(request.payload)
  }

  /** A request is valid exactly with a fingerprint of 64 hexadecimal digits, a valid key and a payload of valid JSON. */
  lemma RequestsAreWritten(request: CreateRequest, validJson: string -> bool)
    ensures ValidRequest(request, validJson) <==>
              && |request.fingerprint| == 64
              && (forall c <- request.fingerprint ::
                    48 <= c as int <= 57 || 65 <= c as int <= 70 || 97 <= c as int <= 102)
              && ValidKey(request.key) && |request.payload| >= 1 && validJson(request.payload)
  {
    hide ValidKey;
  }

  /** The jobs among a list of identifiers that recovery puts back: those that exist and have not ended. */
  function LiveOnly(jobs: Jobs, ids: seq<JobId>): seq<JobId> {
    if ids == [] then []
    else (if ids[0] in jobs && !jobs[ids[0]].state.Terminal() then [ids[0]] else []) + LiveOnly(jobs, ids[1..])
  }

  class Store {
    const maxQueued: int
    const validJson: string -> bool
    var jobs: Jobs
    var subscribers: Subscribers
    var events: Logs
    var coalesce: map<Fingerprint, JobId>
    var idempotency: map<Slot, JobId>
    var cancelFlags: set<JobId>
    var queue: seq<JobId>
    var processing: seq<JobId>

    ghost function View(): Db
      reads this
    {
      Db(jobs, subscribers, events, coalesce, idempotency, cancelFlags, queue, processing)
    }

    ghost predicate Valid()
      reads this
    {
      DbInv(View())
    }

    constructor (maxQueued: int, validJson: string -> bool)
      ensures Valid() && View() == EMPTY_DB
      ensures this.maxQueued == if maxQueued >= 1 then maxQueued else 256
      ensures this.validJson == validJson
    {
      this.maxQueued := if maxQueued <= 0 then DEFAULT_MAX_QUEUED else maxQueued;
      this.validJson := validJson;
      jobs, subscribers, events, coalesce, idempotency := map[], map[], map[], map[], map[];
      cancelFlags, queue, processing := {}, [], [];
    }

    // ----- the scripts -----

    method PushEvent(id: JobId, event: Event)
      modifies this`events
      ensures events == old(events)[id := LogOf(old(events), id) + [event]]
    {
      events := events[id := LogOf(events, id) + [event]];
    }

    method RunJoin(request: CreateRequest, existing: JobId, draw: Draw) returns (outcome: CreateOutcome)
      requires existing in jobs
      modifies this
      ensures CreateReply(View(), existing, outcome) == JoinScript(old(View()), request, existing, draw)
    {
      var added := request.key !in SubscribersOf(subscribers, existing);
      subscribers := subscribers[existing := SubscribersOf(subscribers, existing) + {request.key}];
      var count := |subscribers[existing]|;
      jobs := jobs[existing := jobs[existing].(subscriberCount := count, updatedAt := draw.now)];
      idempotency := idempotency[(request.fingerprint, request.key) := existing];
      if added {
        var job := jobs[existing];
        PushEvent(existing, Event(draw.eventId, existing, job.state, JOINED_MESSAGE, draw.now, job.progress));
        return Joined;
      }
      outcome := Idempotent;
    }

    method RunCreate(request: CreateRequest, draw: Draw) returns (id: JobId, outcome: CreateOutcome)
      modifies this
      ensures CreateReply(View(), id, outcome) == CreateScript(old(View()), request, draw, maxQueued)
    {
      if |queue| >= maxQueued {
        return "", Full;
      }
      id := draw.jobId;
      jobs := jobs[id :=
        Job(id, request.kind, Queued, 1, draw.now, draw.now, "", request.payload, request.fingerprint, 0)];
      subscribers := subscribers[id := SubscribersOf(subscribers, id) + {request.key}];
      coalesce := coalesce[request.fingerprint := id];
      idempotency := idempotency[(request.fingerprint, request.key) := id];
      queue := queue + [id];
      PushEvent(id, Event(draw.eventId, id, Queued, QUEUED_MESSAGE, draw.now, 0));
      outcome := Created;
    }

    method RunCreateOrJoin(request: CreateRequest, draw: Draw) returns (id: JobId, outcome: CreateOutcome)
      modifies this
      ensures CreateReply(View(), id, outcome) == CreateOrJoinScript(old(View()), request, draw, maxQueued)
    {
      hide JoinScript, CreateScript;
      var slot := (request.fingerprint, request.key);
      if slot in idempotency {
        return idempotency[slot], Idempotent;
      }
      if request.fingerprint in coalesce {
        var existing := coalesce[request.fingerprint];
        if existing in jobs && !jobs[existing].state.Terminal() {
          id := existing;
          outcome := RunJoin(request, existing, draw);
          return;
        }
        coalesce := coalesce - {request.fingerprint};
      }
      id, outcome := RunCreate(request, draw);
    }

    method RunUnsubscribe(leave: Leave, eventId: string, now: int) returns (outcome: LeaveOutcome)
      modifies this
      ensures LeaveReply(View(), outcome) == UnsubscribeScript(old(View()), leave, eventId, now)
    {
      var slot := (leave.fingerprint, leave.key);
      if leave.id !in jobs {
        return JobMissing;
      }
      if slot !in idempotency || idempotency[slot] != leave.id {
        return NoSubscription;
      }
      if leave.key !in SubscribersOf(subscribers, leave.id) {
        idempotency := idempotency - {slot};
        return NoSubscription;
      }
      subscribers := subscribers[leave.id := SubscribersOf(subscribers, leave.id) - {leave.key}];
      idempotency := idempotency - {slot};
      var count := |subscribers[leave.id]|;
      var state := jobs[leave.id].state;
      jobs := jobs[leave.id := jobs[leave.id].(subscriberCount := count, updatedAt := now)];
      if count == 0 && !state.Terminal() {
        state := Cancelled;
        jobs := jobs[leave.id := jobs[leave.id].(state := state, updatedAt := now, progress := 100)];
        cancelFlags := cancelFlags + {leave.id};
        if leave.fingerprint in coalesce && coalesce[leave.fingerprint] == leave.id {
          coalesce := coalesce - {leave.fingerprint};
        }
        PushEvent(leave.id, Event(eventId, leave.id, Cancelled, LEFT_MESSAGE, now, 100));
      }
      outcome := Left(count, state);
    }

    method RunTransition(write: Write) returns (outcome: TransitionOutcome)
      modifies this`jobs, this`coalesce, this`events
      ensures TransitionReply(View(), outcome) == TransitionScript(old(View()), write)
    {
      if write.id !in jobs {
        return Missing;
      }
      var current := jobs[write.id].state;
      if current == Cancelled || write.id in cancelFlags {
        return AlreadyCancelled;
      }
      if current.Terminal() {
        return AlreadyTerminal;
      }
      jobs := jobs[write.id := jobs[write.id].(
        state := write.state, updatedAt := write.now, progress := write.progress, result := write.result)];
      PushEvent(write.id, Event(write.eventId, write.id, write.state, write.message, write.now, write.progress));
      if write.state.Terminal() {
        if write.fingerprint in coalesce && coalesce[write.fingerprint] == write.id {
          coalesce := coalesce - {write.fingerprint};
        }
      }
      outcome := Moved;
    }

    // ----- the methods -----

    method Get(id: JobId) returns (result: Result<Job>)
      ensures result == if id in jobs then Ok(jobs[id]) else Err(NotFound)
    {
      result := if id in jobs then Ok(jobs[id]) else Err(NotFound);
    }

    /** Create a job, join the running one, or get the same job back. */
    method CreateOrJoin(request: CreateRequest, draw: Draw) returns (result: Result<(Job, CreateOutcome)>)
      requires Valid()
      requires draw.jobId !in jobs
      modifies this
      ensures Valid() && JobsKept(old(View()), View())
      ensures !ValidRequest(request, validJson) ==> result == Err(InvalidInput) && View() == old(View())
      ensures ValidRequest(request, validJson) ==>
              var reply := CreateOrJoinScript(old(View()), request, draw, maxQueued);
              && View() == reply.db
              && CreateMeaning(old(View()), request, draw, maxQueued, reply)
              && (reply.outcome == Full ==> result == Err(QueueFull))
              && (reply.outcome != Full ==> reply.id in jobs && result == Ok((jobs[reply.id], reply.outcome)))
    {
      hide DbInv, JobsKept, CreateOrJoinScript, ValidRequest;
      if !ValidRequest(request, validJson) {
        JobsKeptRefl(View());
        return Err(InvalidInput);
      }
      CreateOrJoinKeeps(View(), request, draw, maxQueued);
      CreateOrJoinMeans(View(), request, draw, maxQueued);
      var id, outcome := RunCreateOrJoin(request, draw);
      if outcome == Full {
        return Err(QueueFull);
      }
      var job := Get(id);
      result := Ok((job.value, outcome));
    }

    /** Drop one subscriber; the last one of a running job cancels it. */
    method Unsubscribe(id: JobId, key: SubscriberKey, eventId: string, now: int) returns (result: Result<Job>)
      requires Valid()
      modifies this
      ensures Valid() && JobsKept(old(View()), View())
      ensures !ValidKey(key) ==> result == Err(InvalidInput) && View() == old(View())
      ensures ValidKey(key) && id !in old(jobs) ==> result == Err(NotFound) && View() == old(View())
      ensures ValidKey(key) && id in old(jobs) ==>
          var leave := Leave(id, key, old(jobs)[id].fingerprint);
          var reply := UnsubscribeScript(old(View()), leave, eventId, now);
          && View() == reply.db
          && LeaveMeaning(old(View()), leave, eventId, now, reply)
          && (if key in SubscribersOf(old(subscribers), id) then id in jobs && result == Ok(jobs[id])
              else result == Err(SubscriptionNotFound))
    {
      hide DbInv, JobsKept, UnsubscribeScript, ValidKey;
      JobsKeptRefl(View());
      if !ValidKey(key) {
        return Err(InvalidInput);
      }
      var read := Get(id);
      if read.Err? {
        return read;
      }
      var leave := Leave(id, key, read.value.fingerprint);
      UnsubscribeKeeps(View(), leave, eventId, now);
      UnsubscribeMeans(View(), leave, eventId, now);
      var outcome := RunUnsubscribe(leave, eventId, now);
      match outcome {
        case JobMissing => return Err(NotFound);
        case NoSubscription => return Err(SubscriptionNotFound);
        case Left(_, _) => result := Get(id);
      }
    }

    /** Read the job, check the table, write. Undisturbed, the write succeeds exactly when the table allows it. */
    method Transition(id: JobId, state: State, message: string, progress: int, output: string, eventId: string, now: int)
      returns (result: Result<Job>)
      requires Valid()
      modifies this`jobs, this`coalesce, this`events
      ensures Valid() && JobsKept(old(View()), View())
      ensures result ==
              if state == Queued || progress < 0 || progress > 100 then Err(InvalidInput)
              else if output != "" && !validJson(output) then Err(InvalidInput)
              else if id !in old(jobs) then Err(NotFound)
              else if !AllowedTransition(old(jobs)[id].state, state) then Err(InvalidInput)
              else if id in jobs then Ok(jobs[id])
              else Err(NotFound)
      ensures jobs.Keys == old(jobs.Keys)
      ensures result.Err? ==> View() == old(View())
      ensures result.Ok? ==>
          var write := Write(id, old(jobs)[id].fingerprint, state, message, progress, output, eventId, now);
          var reply := TransitionScript(old(View()), write);
          && reply == TransitionReply(View(), Moved)
          && TransitionMeaning(old(View()), write, reply)
    {
      hide DbInv, JobsKept, TransitionScript;
      JobsKeptRefl(View());
      if state == Queued || progress < 0 || progress > 100 {
        return Err(InvalidInput);
      }
      if output != "" && !validJson(output) {
        return Err(InvalidInput);
      }
      var read := Get(id);
      if read.Err? {
        return read;
      }
      if !AllowedTransition(read.value.state, state) {
        return Err(InvalidInput);
      }
      var write := Write(id, read.value.fingerprint, state, message, progress, output, eventId, now);
      TransitionTable(read.value.state, state);
      TransitionKeeps(View(), write);
      TransitionMeans(View(), write);
      TransitionScriptKeys(View(), write);
      var outcome := RunTransition(write);
      match outcome {
        case Missing => return Err(NotFound);
        case AlreadyCancelled => return Err(JobCancelled);
        case AlreadyTerminal => return Err(TerminalJob);
        case Moved => result := Get(id);
      }
    }

    method CancelRequested(id: JobId) returns (requested: bool)
      ensures requested <==> id in cancelFlags
    {
      requested := id in cancelFlags;
    }

    /** Take the newest identifier of the queue into processing. */
    method Claim() returns (result: Result<JobId>)
      modifies this`queue, this`processing
      ensures old(queue) == [] ==> result == Err(NoJobAvailable) && View() == old(View())
      ensures old(queue) != [] ==>
          && result == Ok(ClaimStep(old(View())).1)
          && View() == ClaimStep(old(View())).0
          && old(queue) == queue + [result.value]
          && processing == [result.value] + old(processing)
    {
      if queue == [] {
        return Err(NoJobAvailable);
      }
      var last := |queue| - 1;
      var id := queue[last];
      queue, processing := queue[..last], [id] + processing;
      result := Ok(id);
    }

    /** Forget one delivery of the job. */
    method Ack(id: JobId)
      modifies this`processing
      ensures processing == RemoveFirst(old(processing), id)
      ensures multiset(processing) == multiset(old(processing)) - multiset{id}
    {
      RemoveFirstTakesOne(processing, id);
      processing := RemoveFirst(processing, id);
    }

    /** Empty the processing list from its end, putting every live job back at the far end of the queue.
        The live ones keep their order and are claimed after everything already queued. */
    method Recover() returns (recovered: nat)
      modifies this`queue, this`processing
      ensures processing == []
      ensures queue == LiveOnly(jobs, old(processing)) + old(queue)
      ensures recovered == |LiveOnly(jobs, old(processing))|
    {
      recovered := 0;
      ghost var was := processing;
      while processing != []
        invariant |processing| <= |was| && processing == was[..|processing|]
        invariant queue == LiveOnly(jobs, was[|processing|..]) + old(queue)
        invariant recovered == |LiveOnly(jobs, was[|processing|..])|
        decreases |processing|
      {
        var last := |processing| - 1;
        var id := processing[last];
        assert was[last..] == [id] + was[last + 1..];
        processing := processing[..last];
        var read := Get(id);
        if read.Err? || read.value.state.Terminal() {
          continue;
        }
        queue := [id] + queue;
        recovered := recovered + 1;
      }
      assert was[0..] == was;
    }
  }

  /** A newly created job is the next one claimed, whatever was waiting before it. */
  lemma NewestIsClaimedFirst(db: Db, request: CreateRequest, draw: Draw, maxQueued: int)
    requires DbInv(db)
    requires draw.jobId !in db.jobs
    ensures var reply := CreateOrJoinScript(db, request, draw, maxQueued);
            reply.outcome == Created ==>
              && reply.db.queue != []
              && ClaimStep(reply.db).1 == reply.id
              && ClaimStep(reply.db).0.queue == db.queue
  {
    hide DbInv, CreateOrJoinScript;
    CreateOrJoinMeans(db, request, draw, maxQueued);
  }

  lemma {:induction false} LiveOnlyContents(jobs: Jobs, ids: seq<JobId>, id: JobId)
    ensures multiset(LiveOnly(jobs, ids))[id] == if Live(jobs, id) then multiset(ids)[id] else 0
  {
    if ids != [] {
      assert ids == [ids[0]] + ids[1..];
      LiveOnlyContents(jobs, ids[1..], id);
    }
  }
}
