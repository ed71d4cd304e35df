/** Subscriptions and idempotency entries are two views of one relation. */
module JobSubscriptions {
  import opened Collections
  import opened JobTypes
  import opened JobScripts
  import opened JobInvariants
  import opened JobSystem
  import opened JobSafety

  ghost function TotalCount(jobs: Jobs, ids: seq<JobId>): nat
    requires forall id <- ids :: id in jobs
  {
    if ids == [] then 0 else jobs[ids[0]].subscriberCount + TotalCount(jobs, ids[1..])
  }

  /** The idempotency entries that name one of the given jobs. */
  ghost function EntriesOf(idempotency: map<Slot, JobId>, ids: seq<JobId>): set<Slot> {
    set slot <- idempotency | idempotency[slot] in ids
  }

  ghost function Slots(fingerprint: Fingerprint, keys: set<SubscriberKey>): set<Slot> {
    set key <- keys :: (fingerprint, key)
  }

  lemma {:induction false} SlotsCount(fingerprint: Fingerprint, keys: set<SubscriberKey>)
    ensures |Slots(fingerprint, keys)| == |keys|
    decreases |keys|
  {
    if keys != {} {
      var key :| key in keys;
      var rest := keys - {key};
      assert Slots(fingerprint, keys) == Slots(fingerprint, rest) + {(fingerprint, key)};
      SlotsCount(fingerprint, rest);
    }
  }

  /** One job's entries are its fingerprint paired with each of its subscribers. */
  lemma EntriesOfOne(db: Db, id: JobId)
    requires DbInv(db)
    requires id in db.jobs
    ensures EntriesOf(db.idempotency, [id]) == Slots(db.jobs[id].fingerprint, SubscribersOf(db.subscribers, id))
    ensures |EntriesOf(db.idempotency, [id])| == db.jobs[id].subscriberCount
  {
    hide CoalesceExact, LogsTrue, CancelFlagsSound, Named;
    var keys := SubscribersOf(db.subscribers, id);
    forall slot | slot in Slots(db.jobs[id].fingerprint, keys)
      ensures slot in EntriesOf(db.idempotency, [id])
    {
      assert Names(db.idempotency, slot, id);
    }
    SlotsCount(db.jobs[id].fingerprint, keys);
    assert CountExact(db.jobs[id], keys);
  }

  lemma {:induction false} CountsSum(db: Db, ids: seq<JobId>)
    requires DbInv(db)
    requires Distinct(ids) && forall id <- ids :: id in db.jobs
    ensures TotalCount(db.jobs, ids) == |EntriesOf(db.idempotency, ids)|
  {
    hide DbInv;
    if ids != [] {
      var rest := ids[1..];
      CountsSum(db, rest);
      EntriesOfOne(db, ids[0]);
      assert ids == [ids[0]] + rest;
      assert EntriesOf(db.idempotency, ids) == EntriesOf(db.idempotency, [ids[0]]) + EntriesOf(db.idempotency, rest);
      assert EntriesOf(db.idempotency, [ids[0]]) !! EntriesOf(db.idempotency, rest);
    }
  }

  /** In every reachable state a key subscribes to a job exactly when its idempotency entry names that job,
      a live job has a subscriber, and over all jobs, in any order, the stored counts add up to the number of
      idempotency entries. */
  lemma SubscriptionsMatchEntries(s: System, ids: seq<JobId>)
    requires Reachable(s)
    requires Distinct(ids) && forall id :: id in ids <==> id in s.db.jobs
    ensures forall id, key :: id in s.db.jobs ==>
              (key in SubscribersOf(s.db.subscribers, id)
               <==> Names(s.db.idempotency, (s.db.jobs[id].fingerprint, key), id))
    ensures forall id :: Live(s.db.jobs, id) ==> s.db.jobs[id].subscriberCount > 0
    ensures TotalCount(s.db.jobs, ids) == |s.db.idempotency|
  {
    hide CoalesceExact, LogsTrue, CancelFlagsSound, Reachable, Conserved, WorkersSound, LeavingSound;
    ReachableInv(s);
    CountsSum(s.db, ids);
    assert EntriesOf(s.db.idempotency, ids) == s.db.idempotency.Keys;
    forall id | Live(s.db.jobs, id)
      ensures s.db.jobs[id].subscriberCount > 0
    {
      FactsOf(s.db, id);
    }
  }
}
