/** The records of the job queue: states, jobs, events and requests, and the transition table. */
module JobTypes {
  type JobId = string
  type Fingerprint = string

  /** An idempotency key. Keys are stored under their SHA-256 digest, which is taken to be injective,
      so a key stands for its own digest and for the subscriber identifier derived from it. */
  type SubscriberKey = string

  datatype State =
    | Queued
    | CheckingCache
    | Searching
    | CheckingPreferredSource
    | CheckingBackupSource
    | BrowserFallback
    | Verified
    | Partial
    | Blocked
    | Failed
    | Cancelled
  {
    predicate Terminal() {
      Verified? || Partial? || Blocked? || Failed? || Cancelled?
    }
  }

  datatype Kind = Search | Resolution | LibraryScan

  datatype Job = Job(
    jobId: JobId,
    kind: Kind,
    state: State,
    subscriberCount: nat,
    createdAt: int,
    updatedAt: int,
    result: string,
    payload: string,
    fingerprint: Fingerprint,
    progress: int)

  datatype Event = Event(
    eventId: string,
    jobId: JobId,
    state: State,
    message: string,
    occurredAt: int,
    progress: int)

  datatype CreateRequest = CreateRequest(kind: Kind, fingerprint: Fingerprint, key: SubscriberKey, payload: string)

  /** The transition table, checked against a job that was read earlier. */
  predicate AllowedTransition(current: State, next: State) {
    match current
    case Queued =>
      next in {CheckingCache, Searching, Failed, Cancelled}
    case CheckingCache =>
      next in {Searching, CheckingPreferredSource, Partial, Failed, Cancelled}
    case Searching =>
      next in {CheckingPreferredSource, CheckingBackupSource, BrowserFallback, Partial, Failed, Cancelled}
    case CheckingPreferredSource =>
      next in {CheckingBackupSource, BrowserFallback, Verified, Partial, Blocked, Failed, Cancelled}
    case CheckingBackupSource =>
      next in {BrowserFallback, Verified, Partial, Blocked, Failed, Cancelled}
    case BrowserFallback =>
      next in {Verified, Partial, Blocked, Failed, Cancelled}
    case _ =>
      false
  }

  /** How far along the pipeline a state is; every terminal state has the top rank. */
  function Rank(state: State): nat {
    match state
    case Queued => 0
    case CheckingCache => 1
    case Searching => 2
    case CheckingPreferredSource => 3
    case CheckingBackupSource => 4
    case BrowserFallback => 5
    case _ => 6
  }

  /** An event log whose consecutive states either repeat or follow the transition table. */
  ghost predicate FollowsTable(log: seq<Event>) {
    forall i :: 0 <= i < |log| - 1 ==> Follows(log[i].state, log[i + 1].state)
  }

  predicate Follows(before: State, after: State) {
    before == after || AllowedTransition(before, after)
  }

  /** The number of times the state changes along a log. */
  function StateChanges(log: seq<Event>): nat {
    if |log| < 2 then 0
    else (if log[|log| - 2].state != log[|log| - 1].state then 1 else 0) + StateChanges(log[..|log| - 1])
  }

  /** The table only moves forward, never leaves a terminal state, and always lets a live job fail or be cancelled. */
  lemma TransitionTable(current: State, next: State)
    ensures AllowedTransition(current, next) ==> Rank(current) < Rank(next)
    ensures current.Terminal() <==> Rank(current) == 6
    ensures current.Terminal() ==> !AllowedTransition(current, next)
    ensures !current.Terminal() ==> AllowedTransition(current, Failed) && AllowedTransition(current, Cancelled)
    ensures !AllowedTransition(current, Queued)
  {
  }

  /** Which steps the table permits, by how far the job has come: a live job can always fail or be cancelled, can end
      in part once it has started, and can be verified or blocked once a source is being checked; otherwise it goes
      one or two ranks up, and from searching also straight to the browser. */
  lemma TableByRank(current: State, next: State)
    ensures AllowedTransition(current, next) <==>
              && !current.Terminal()
              && (|| next in {Failed, Cancelled}
                  || (next == Partial && Rank(current) >= 1)
                  || (next in {Verified, Blocked} && Rank(current) >= 3)
                  || (!next.Terminal() && Rank(current) < Rank(next) <= Rank(current) + 2)
                  || (current == Searching && next == BrowserFallback))
    ensures current.Terminal() <==> forall other :: !AllowedTransition(current, other)
    ensures current.Terminal() <==> current in {Verified, Partial, Blocked, Failed, Cancelled}
  {
    if !current.Terminal() {
      assert AllowedTransition(current, Failed);
    }
  }

  /** Along a log that follows the table each state change raises the rank, so there are at most six of them. */
  lemma {:induction false} ChangesAreBounded(log: seq<Event>)
    requires FollowsTable(log)
    requires log != []
    ensures StateChanges(log) <= Rank(log[|log| - 1].state) - Rank(log[0].state) <= 6
  {
    if |log| >= 2 {
      var front := log[..|log| - 1];
      assert FollowsTable(front);
      ChangesAreBounded(front);
      assert Follows(log[|log| - 2].state, log[|log| - 2 + 1].state);
      TransitionTable(log[|log| - 2].state, log[|log| - 1].state);
    }
  }
}
