/** What each step does to the event logs. */
module JobLogs {
  import opened JobTypes
  import opened JobScripts
  import opened JobInvariants
  import opened JobCreate
  import opened JobUnsubscribe
  import opened JobTransition

  /** A log either stays, or gains one event that carries the job's new state. */
  ghost predicate LogMoves(before: Db, after: Db, id: JobId)
    requires id in before.jobs && id in after.jobs
  {
    var log, grown := LogOf(before.events, id), LogOf(after.events, id);
    || (grown == log && after.jobs[id].state == before.jobs[id].state)
    || (|grown| == |log| + 1 && grown[..|log|] == log && grown[|log|].state == after.jobs[id].state)
  }

  /** What clients do to a job: it stays in its state, or it is cancelled while it is live. */
  ghost predicate ClientMove(before: Db, after: Db, id: JobId) {
    && id in before.jobs && id in after.jobs
    && LogMoves(before, after, id)
    && (after.jobs[id].state == before.jobs[id].state
        || (!before.jobs[id].state.Terminal() && after.jobs[id].state == Cancelled))
  }

  ghost predicate ClientMoves(before: Db, after: Db) {
    forall id <- before.jobs :: ClientMove(before, after, id)
  }

  lemma JoinMoves(db: Db, request: CreateRequest, existing: JobId, draw: Draw)
    requires existing in db.jobs
    ensures ClientMoves(db, JoinScript(db, request, existing, draw).db)
  {
    var after := JoinScript(db, request, existing, draw).db;
    forall id <- db.jobs
      ensures ClientMove(db, after, id)
    {
      if id == existing {
        assert LogMoves(db, after, id);
      }
    }
  }

  lemma NewMoves(db: Db, request: CreateRequest, draw: Draw, maxQueued: int)
    requires draw.jobId !in db.jobs
    ensures ClientMoves(db, CreateScript(db, request, draw, maxQueued).db)
  {
  }

  lemma CreateOrJoinMoves(db: Db, request: CreateRequest, draw: Draw, maxQueued: int)
    requires DbInv(db)
    requires draw.jobId !in db.jobs
    ensures ClientMoves(db, CreateOrJoinScript(db, request, draw, maxQueued).db)
  {
    hide CoalesceExact, SubscriptionsExact, CountsExact, LogsTrue, CancelFlagsSound, JoinScript, CreateScript;
    LookupsExact(db, request);
    if request.fingerprint in db.coalesce {
      JoinMoves(db, request, db.coalesce[request.fingerprint], draw);
    } else {
      NewMoves(db, request, draw, maxQueued);
    }
  }

  lemma UnsubscribeMoves(db: Db, leave: Leave, eventId: string, now: int)
    ensures ClientMoves(db, UnsubscribeScript(db, leave, eventId, now).db)
  {
    var after := UnsubscribeScript(db, leave, eventId, now).db;
    forall id <- db.jobs
      ensures ClientMove(db, after, id)
    {
      assert LogMoves(db, after, id);
    }
  }

  lemma TransitionMoves(db: Db, write: Write, id: JobId)
    requires write.id in db.jobs
    requires id in db.jobs
    ensures var reply := TransitionScript(db, write);
            && id in reply.db.jobs
            && LogMoves(db, reply.db, id)
            && (id != write.id ==>
                  reply.db.jobs[id] == db.jobs[id] && LogOf(reply.db.events, id) == LogOf(db.events, id))
            && (db.jobs[id].state.Terminal() ==> reply.db.jobs[id].state == db.jobs[id].state)
            && (reply.db.jobs[id].state in {db.jobs[id].state, write.state})
  {
  }

  ghost predicate LogsFollow(db: Db) {
    forall id <- db.jobs :: FollowsTable(LogOf(db.events, id))
  }

  /** A log that moves from a state to one that may follow it keeps to the table. */
  lemma MoveFollows(before: Db, after: Db, id: JobId)
    requires id in before.jobs && id in after.jobs
    requires LogTrue(LogOf(before.events, id), before.jobs[id])
    requires FollowsTable(LogOf(before.events, id))
    requires LogMoves(before, after, id)
    requires Follows(before.jobs[id].state, after.jobs[id].state)
    ensures FollowsTable(LogOf(after.events, id))
  {
    var log, grown := LogOf(before.events, id), LogOf(after.events, id);
    if grown != log {
      forall i | 0 <= i < |grown| - 1
        ensures Follows(grown[i].state, grown[i + 1].state)
      {
        assert grown[i] == grown[..|log|][i];
        if i < |log| - 1 {
          assert grown[i + 1] == grown[..|log|][i + 1];
          assert Follows(log[i].state, log[i + 1].state);
        }
      }
    }
  }
}
