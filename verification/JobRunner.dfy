/** The worker's processing of one job as the method it is, shown to be a run of the worker machine,
    and the drain it achieves when nobody else interferes. */
module JobRunner {
  import opened Wrappers
  import opened JobTypes
  import opened JobScripts
  import opened JobInvariants
  import opened JobTransition
  import opened JobSystem
  import opened JobSafety
  import opened JobSession
  import opened JobStore

  /** A worker acting alone. */
  ghost predicate CanPlay(db: Db, worker: JobSystem.Worker, actions: seq<Action>)
    decreases |actions|, 0
  {
    actions == []
    || (var front := actions[..|actions| - 1];
        CanPlay(db, worker, front)
        && CanAct(Play(db, worker, front).0, Play(db, worker, front).1, actions[|actions| - 1]))
  }

  ghost function Play(db: Db, worker: JobSystem.Worker, actions: seq<Action>): (Db, JobSystem.Worker)
    requires CanPlay(db, worker, actions)
    decreases |actions|, 1
  {
    if actions == [] then (db, worker)
    else
      var (before, at) := Play(db, worker, actions[..|actions| - 1]);
      Act(before, at, actions[|actions| - 1])
  }

  ghost predicate Plays(db: Db, worker: JobSystem.Worker, actions: seq<Action>, after: Db, moved: JobSystem.Worker) {
    CanPlay(db, worker, actions) && Play(db, worker, actions) == (after, moved)
  }

  lemma PlayMore(db: Db, worker: JobSystem.Worker, actions: seq<Action>, mid: Db, at: JobSystem.Worker, action: Action)
    requires Plays(db, worker, actions, mid, at)
    requires CanAct(mid, at, action)
    ensures Plays(db, worker, actions + [action], Act(mid, at, action).0, Act(mid, at, action).1)
  {
    hide CanAct, Act;
    assert (actions + [action])[..|actions|] == actions;
  }

  /** What an executor asks of its reporter, and how it returns; any finite behaviour is such a plan. */
  datatype Call = Ask | Tell(next: State, report: Report)

  datatype Plan = Plan(calls: seq<Call>, ending: Ending)

  /** An executor that returns, and does not claim a cancellation nobody told it of. Undisturbed, nobody does. */
  predicate Returns(plan: Plan) {
    plan.ending in {Finished, Broke}
  }

  // ----- what the executor's reports come to -----

  /** A report that was taken: the state it told and what it said of it. */
  datatype Told = Told(next: State, report: Report)

  /** A report is taken if its arguments are valid and the table allows its state after the one before. */
  predicate Acceptable(state: State, told: Told, validJson: string -> bool) {
    && told.next != Queued
    && 0 <= told.report.progress <= 100
    && (told.report.result == "" || validJson(told.report.result))
    && AllowedTransition(state, told.next)
  }

  function StateTold(state: State, heard: seq<Told>): State {
    if heard == [] then state else heard[|heard| - 1].next
  }

  /** The reports that are taken, each judged after those taken before it. */
  function Heard(state: State, calls: seq<Call>, validJson: string -> bool): seq<Told> {
    if calls == [] then []
    else
      var before := Heard(state, calls[..|calls| - 1], validJson);
      match calls[|calls| - 1]
      case Ask => before
      case Tell(next, report) =>
        if Acceptable(StateTold(state, before), Told(next, report), validJson) then before + [Told(next, report)]
        else before
  }

  function TellsOf(calls: seq<Call>): seq<Told> {
    if calls == [] then []
    else
      TellsOf(calls[..|calls| - 1])
      + (match calls[|calls| - 1] case Ask => [] case Tell(next, report) => [Told(next, report)])
  }

  /** If every report is acceptable after the ones before it, every report is taken. */
  lemma {:induction false} EveryReportIsHeard(state: State, calls: seq<Call>, validJson: string -> bool)
    requires forall k :: 0 <= k < |TellsOf(calls)| ==>
               Acceptable(StateTold(state, TellsOf(calls)[..k]), TellsOf(calls)[k], validJson)
    ensures Heard(state, calls, validJson) == TellsOf(calls)
  {
    if calls != [] {
      var front := calls[..|calls| - 1];
      var told, all := TellsOf(front), TellsOf(calls);
      assert forall k :: 0 <= k <= |told| ==> all[..k] == told[..k];
      assert told[..|told|] == told;
      EveryReportIsHeard(state, front, validJson);
      if calls[|calls| - 1].Tell? {
        assert Acceptable(StateTold(state, all[..|told|]), all[|told|], validJson);
      }
    }
  }

  /** One event for each report, in order, with its state, message and progress. */
  function EventsTold(id: JobId, heard: seq<Told>): (events: seq<Event>)
    ensures |events| == |heard|
    ensures forall i :: 0 <= i < |heard| ==>
              events[i].jobId == id && events[i].state == heard[i].next && events[i].eventId == heard[i].report.eventId
              && events[i].message == heard[i].report.message && events[i].progress == heard[i].report.progress
              && events[i].occurredAt == heard[i].report.now
  {
    seq(|heard|, i requires 0 <= i < |heard| =>
      var report := heard[i].report;
      Event(report.eventId, id, heard[i].next, report.message, report.now, report.progress))
  }

  /** The record has the last report's state, progress, result and time. */
  function JobTold(job: Job, heard: seq<Told>): Job {
    if heard == [] then job
    else
      var last := heard[|heard| - 1];
      job.(state := last.next, updatedAt := last.report.now, progress := last.report.progress,
           result := last.report.result)
  }

  /** From one store to the other exactly these reports were written for the job, and nothing for any other. */
  ghost predicate Reported(before: Db, after: Db, id: JobId, heard: seq<Told>) {
    && id in before.jobs
    && after.jobs == before.jobs[id := JobTold(before.jobs[id], heard)]
    && LogOf(after.events, id) == LogOf(before.events, id) + EventsTold(id, heard)
    && after.events - {id} == before.events - {id}
    && after.coalesce == (if heard != [] && StateTold(Queued, heard).Terminal()
                          then before.coalesce - {before.jobs[id].fingerprint} else before.coalesce)
  }

  lemma NothingReported(db: Db, id: JobId)
    requires id in db.jobs
    ensures Reported(db, db, id, [])
  {
    assert LogOf(db.events, id) + [] == LogOf(db.events, id);
  }

  lemma OneMoreReport(before: Db, mid: Db, after: Db, id: JobId, heard: seq<Told>, told: Told)
    requires Reported(before, mid, id, heard) && Live(mid.jobs, id)
    requires heard != [] ==> !StateTold(Queued, heard).Terminal()
    requires TransitionMeaning(mid, WriteOf(mid.jobs[id], id, told), TransitionReply(after, Moved))
    ensures Reported(before, after, id, heard + [told])
  {
    var events, event := EventsTold(id, heard), EventOfWrite(WriteOf(mid.jobs[id], id, told));
    assert EventsTold(id, heard + [told]) == events + [event];
    assert LogOf(after.events, id) == LogOf(mid.events, id) + [event];
    assert LogOf(before.events, id) + (events + [event]) == (LogOf(before.events, id) + events) + [event];
    assert after.events - {id} == mid.events - {id};
  }

  function WriteOf(job: Job, id: JobId, told: Told): Write {
    Write(id, job.fingerprint, told.next, told.report.message, told.report.progress, told.report.result,
          told.report.eventId, told.report.now)
  }

  lemma ReportedThen(before: Db, mid: Db, after: Db, id: JobId, heard: seq<Told>, told: Told)
    requires Reported(before, mid, id, heard) && Reported(mid, after, id, [told])
    requires heard != [] ==> !StateTold(Queued, heard).Terminal()
    ensures Reported(before, after, id, heard + [told])
  {
    var events, last := EventsTold(id, heard), EventsTold(id, [told]);
    assert EventsTold(id, heard + [told]) == events + last;
    assert LogOf(before.events, id) + (events + last) == (LogOf(before.events, id) + events) + last;
  }

  /** What the runner reports for an executor that returned without ending its job. */
  function ForcedReport(ending: Ending, eventId: string, now: int): Told {
    Told(Failed, Report(if ending == Finished then FORCED_AFTER_RETURN else FORCED_AFTER_ERROR, 100, "", eventId, now))
  }

  /** All that a delivery reports: what the executor told, and then, only if it returned and left its job live, the
      forced failure. */
  function Delivered(state: State, plan: Plan, validJson: string -> bool, eventId: string, now: int): seq<Told> {
    var heard := Heard(state, plan.calls, validJson);
    if Returns(plan) && !StateTold(state, heard).Terminal() then heard + [ForcedReport(plan.ending, eventId, now)]
    else heard
  }

  /** The ordinary course of a resolution: the cache, the preferred source, and the verified result. Nothing is forced
      and the job ends verified, with that result. */
  lemma OrdinaryResolution(
    job: Job, first: Report, second: Report, last: Report, validJson: string -> bool, eventId: string, now: int)
    requires job.state == Queued
    requires forall report <- [first, second, last] ::
               0 <= report.progress <= 100 && (report.result == "" || validJson(report.result))
    ensures var calls := [Tell(CheckingCache, first), Tell(CheckingPreferredSource, second), Tell(Verified, last)];
            var heard := Delivered(Queued, Plan(calls, Finished), validJson, eventId, now);
            && heard == [Told(CheckingCache, first), Told(CheckingPreferredSource, second), Told(Verified, last)]
            && JobTold(job, heard).state == Verified && JobTold(job, heard).result == last.result
  {
    var calls := [Tell(CheckingCache, first), Tell(CheckingPreferredSource, second), Tell(Verified, last)];
    assert calls[..2][..1] == calls[..1] && calls[..1][..0] == [];
    assert Heard(Queued, calls[..1], validJson) == [Told(CheckingCache, first)];
    assert Heard(Queued, calls[..2], validJson) == [Told(CheckingCache, first), Told(CheckingPreferredSource, second)];
  }

  class Runner {
    const store: Store

    constructor (store: Store)
      ensures this.store == store
    {
      this.store := store;
    }

    /** The executor's calls, one after the other. Undisturbed, it is never told "cancelled". */
    method Execute(id: JobId, calls: seq<Call>, ghost was: Db, ghost before: seq<Action>) returns (ghost trace: seq<Action>)
      requires store.Valid()
      requires id in store.jobs && id !in store.cancelFlags
      requires Plays(was, Claimed(id), before, store.View(), Executing(id, false))
      modifies store`jobs, store`coalesce, store`events
      ensures store.Valid() && JobsKept(old(store.View()), store.View())
      ensures store.jobs.Keys == old(store.jobs.Keys)
      ensures Plays(was, Claimed(id), before + trace, store.View(), Executing(id, false))
      ensures Reported(old(store.View()), store.View(), id, Heard(old(store.jobs)[id].state, calls, store.validJson))
      ensures store.jobs[id].state ==
              StateTold(old(store.jobs)[id].state, Heard(old(store.jobs)[id].state, calls, store.validJson))
    {
      hide DbInv, JobsKept, TransitionMeaning, TransitionScript, Plays, Reported, Act, CanAct, AllowedTransition;
      trace := [];
      assert before + trace == before;
      JobsKeptRefl(store.View());
      ghost var start, state := store.View(), store.jobs[id].state;
      NothingReported(start, id);
      var i := 0;
      assert calls[..0] == [];
      while i < |calls|
        invariant 0 <= i <= |calls|
        invariant store.Valid() && JobsKept(old(store.View()), store.View())
        invariant store.jobs.Keys == old(store.jobs.Keys)
        invariant Plays(was, Claimed(id), before + trace, store.View(), Executing(id, false))
        invariant Reported(start, store.View(), id, Heard(state, calls[..i], store.validJson))
        invariant store.jobs[id].state == StateTold(state, Heard(state, calls[..i], store.validJson))
      {
        ghost var heard := Heard(state, calls[..i], store.validJson);
        assert calls[..i + 1][..i] == calls[..i] && calls[..i + 1][i] == calls[i];
        ghost var view, soFar := store.View(), before + trace;
        match calls[i] {
          case Ask =>
            var told := store.CancelRequested(id);
            AskPlays(was, view, id, soFar);
            assert before + (trace + [AskCancelled]) == soFar + [AskCancelled];
            trace := trace + [AskCancelled];
          case Tell(next, report) =>
            var result := store.Transition(
              id, next, report.message, report.progress, report.result, report.eventId, report.now);
            JobsKeptTrans(old(store.View()), view, store.View());
            if result.Ok? {
              TellPlays(was, view, store.View(), id, soFar, next, report);
              AllowedIsLive(view.jobs[id].state, next);
              LastHeardIsLive(state, heard, next);
              OneMoreReport(start, view, store.View(), id, heard, Told(next, report));
              MovedState(view, WriteOf(view.jobs[id], id, Told(next, report)), store.View());
              assert before + (trace + [BeginReport(next), EndReport(report)])
                  == soFar + [BeginReport(next), EndReport(report)];
              trace := trace + [BeginReport(next), EndReport(report)];
            }
        }
        i := i + 1;
      }
      assert calls[..|calls|] == calls;
    }

    /** The read and the forced transition after an executor has returned, up to the acknowledgement. A job that is
        gone by then is an error that ends the worker. */
    method Settle(id: JobId, ending: Ending, eventId: string, now: int, ghost was: Db, ghost before: seq<Action>)
      returns (ok: bool, ghost trace: seq<Action>)
      requires store.Valid()
      requires ending in {Finished, Broke}
      requires Plays(was, Claimed(id), before, store.View(), Settling(id, ending))
      modifies store`jobs, store`coalesce, store`events
      ensures store.Valid() && JobsKept(old(store.View()), store.View())
      ensures store.jobs.Keys == old(store.jobs.Keys)
      ensures ok <==> id in old(store.jobs)
      ensures ok ==> Ended(store.jobs, id)
      ensures !ok || Ended(old(store.jobs), id) ==> store.View() == old(store.View())
      ensures ok && !Ended(old(store.jobs), id) ==>
                Reported(old(store.View()), store.View(), id, [ForcedReport(ending, eventId, now)])
      ensures Plays(was, Claimed(id), before + trace, store.View(), if ok then Acking(id) else Stopped(Some(id)))
    {
      hide DbInv, JobsKept, Plays, TransitionScript, Act, CanAct;
      JobsKeptRefl(store.View());
      ghost var view := store.View();
      trace := [LookAgain];
      SettleLooks(view, id, ending, was, before);
      var latest := store.Get(id);
      if latest.Err? {
        return false, trace;
      }
      if !latest.value.state.Terminal() {
        var message := if ending == Finished then FORCED_AFTER_RETURN else FORCED_AFTER_ERROR;
        TransitionTable(latest.value.state, Failed);
        var forced := store.Transition(id, Failed, message, 100, "", eventId, now);
        trace := [LookAgain, BeginForce, EndForce(eventId, now)];
        ForcePlays(view, id, ending, eventId, now, store.View(), was, before);
        NothingReported(view, id);
        OneMoreReport(view, view, store.View(), id, [], ForcedReport(ending, eventId, now));
      }
      ok := true;
    }

    /** Executing and settling a job, up to the acknowledgement. An executor that claims a cancellation is believed. */
    method Deliver(id: JobId, plan: Plan, eventId: string, now: int, ghost was: Db, ghost before: seq<Action>)
      returns (worker: JobSystem.Worker, ghost trace: seq<Action>)
      requires store.Valid()
      requires id in store.jobs && id !in store.cancelFlags
      requires Plays(was, Claimed(id), before, store.View(), Executing(id, false))
      modifies store`jobs, store`coalesce, store`events
      ensures store.Valid() && JobsKept(old(store.View()), store.View())
      ensures store.jobs.Keys == old(store.jobs.Keys)
      ensures plan.ending != SawCancelled ==> Plays(was, Claimed(id), before + trace, store.View(), worker)
      ensures worker == if plan.ending == Interrupted then Stopped(Some(id)) else Acking(id)
      ensures Returns(plan) ==> Ended(store.jobs, id)
      ensures Reported(old(store.View()), store.View(), id,
                       Delivered(old(store.jobs)[id].state, plan, store.validJson, eventId, now))
    {
      hide DbInv, JobsKept, CanPlay, Play, Plays, TransitionScript, Reported, Heard;
      ghost var start := store.View();
      trace := Execute(id, plan.calls, was, before);
      ghost var mid := store.View();
      if plan.ending == SawCancelled {
        worker := Acking(id);
        return;
      }
      assert before + (trace + [Return(plan.ending)]) == before + trace + [Return(plan.ending)];
      PlayMore(was, Claimed(id), before + trace, mid, Executing(id, false), Return(plan.ending));
      trace := trace + [Return(plan.ending)];
      if plan.ending == Interrupted {
        worker := Stopped(Some(id));
        return;
      }
      var ok;
      ghost var settled;
      ok, settled := Settle(id, plan.ending, eventId, now, was, before + trace);
      if !mid.jobs[id].state.Terminal() {
        ghost var heard := Heard(start.jobs[id].state, plan.calls, store.validJson);
        ReportedThen(start, mid, store.View(), id, heard, ForcedReport(plan.ending, eventId, now));
      }
      JobsKeptTrans(start, mid, store.View());
      assert before + (trace + settled) == before + trace + settled;
      trace := trace + settled;
      worker := Acking(id);
    }

    /** One delivery of a claimed identifier. It is a run of the worker machine from the claim on; and if the
        executor returns, the job, if it exists, has ended and its delivery is acknowledged, whatever the executor
        did or left undone. An executor that claims a cancellation nobody told it of is no run of the machine; its
        delivery is acknowledged all the same. */
    method Process(id: JobId, plan: Plan, eventId: string, now: int)
      returns (worker: JobSystem.Worker, ghost trace: seq<Action>)
      requires store.Valid()
      modifies store`jobs, store`coalesce, store`events, store`processing
      ensures store.Valid() && JobsKept(old(store.View()), store.View())
      ensures store.jobs.Keys == old(store.jobs.Keys)
      ensures plan.ending != SawCancelled ==> Plays(old(store.View()), Claimed(id), trace, store.View(), worker)
      ensures worker == if plan.ending == Interrupted && Live(old(store.jobs), id) then Stopped(Some(id)) else Idle
      ensures worker == Idle ==> store.processing == RemoveFirst(old(store.processing), id)
      ensures worker == Idle && id in old(store.jobs) && plan.ending != SawCancelled ==> Ended(store.jobs, id)
      ensures worker != Idle ==> store.processing == old(store.processing)
      // the job's record and log are what the executor told, and the forced failure if it left the job live
      ensures Live(old(store.jobs), id) ==>
                Reported(old(store.View()), store.View(), id,
                         Delivered(old(store.jobs)[id].state, plan, store.validJson, eventId, now))
      ensures !Live(old(store.jobs), id) ==>
                store.jobs == old(store.jobs) && store.events == old(store.events) && store.coalesce == old(store.coalesce)
    {
      hide DbInv, JobsKept, Plays, TransitionScript, Act, CanAct, Delivered;
      ghost var was := store.View();
      JobsKeptRefl(was);
      LookPlays(was, id);
      trace := [Look];
      var job := store.Get(id);
      if job.Ok? && !job.value.state.Terminal() {
        FactsOf(was, id);
        FlagPlays(was, id);
        trace := [Look, CheckFlag];
        var cancelled := store.CancelRequested(id);
        if !cancelled {
          ghost var delivered;
          worker, delivered := Deliver(id, plan, eventId, now, was, trace);
          trace := trace + delivered;
          if worker.Stopped? {
            return;
          }
        }
      }
      ghost var view := store.View();
      Acknowledge(id);
      JobsKeptTrans(was, view, store.View());
      if plan.ending != SawCancelled {
        AckPlays(was, id, trace, view);
      }
      trace := trace + [JobSystem.Ack];
      worker := Idle;
    }

    method Acknowledge(id: JobId)
      requires store.Valid()
      modifies store`processing
      ensures store.Valid()
      ensures store.processing == RemoveFirst(old(store.processing), id)
      ensures JobsKept(old(store.View()), store.View())
      ensures store.View() == AckStep(old(store.View()), id)
    {
      hide DbInv, JobsKept, RemoveFirst;
      ghost var view := store.View();
      store.Ack(id);
      ListsDoNotMatter(view, store.queue, store.processing);
    }
  }

  /** An executor can return as cancelled exactly if it asked after the job was flagged, and then the delivery is
      acknowledged without another look at the job. */
  lemma CancelledIsAcknowledged(db: Db, id: JobId)
    ensures CanPlay(db, Executing(id, false), [AskCancelled, Return(SawCancelled)]) <==> id in db.cancelFlags
    ensures !CanPlay(db, Executing(id, false), [Return(SawCancelled)])
    ensures id in db.cancelFlags ==>
              Plays(db, Executing(id, false), [AskCancelled, Return(SawCancelled), JobSystem.Ack], AckStep(db, id), Idle)
  {
    var actions := [AskCancelled, Return(SawCancelled), JobSystem.Ack];
    assert actions[..2] == [AskCancelled, Return(SawCancelled)] && actions[..2][..1] == [AskCancelled];
    assert [AskCancelled][..0] == [] && [Return(SawCancelled)][..0] == [];
    hide AckStep;
    PlaysNothing(db, Executing(id, false));
    assert CanPlay(db, Executing(id, false), [AskCancelled]);
    assert Play(db, Executing(id, false), [AskCancelled]) == (db, Executing(id, id in db.cancelFlags));
  }

  lemma PlaysNothing(db: Db, worker: JobSystem.Worker)
    ensures Plays(db, worker, [], db, worker)
  {
  }

  // ----- the method's steps are the machine's -----

  lemma AskPlays(was: Db, db: Db, id: JobId, before: seq<Action>)
    requires Plays(was, Claimed(id), before, db, Executing(id, false)) && id !in db.cancelFlags
    ensures Plays(was, Claimed(id), before + [AskCancelled], db, Executing(id, false))
  {
    hide Plays;
    PlayMore(was, Claimed(id), before, db, Executing(id, false), AskCancelled);
  }

  lemma TellPlays(was: Db, db: Db, after: Db, id: JobId, before: seq<Action>, next: State, report: Report)
    requires Plays(was, Claimed(id), before, db, Executing(id, false)) && id in db.jobs
    requires next != Queued && 0 <= report.progress <= 100 && AllowedTransition(db.jobs[id].state, next)
    requires TransitionScript(db, WriteOf(db.jobs[id], id, Told(next, report))) == TransitionReply(after, Moved)
    ensures Plays(was, Claimed(id), before + [BeginReport(next), EndReport(report)], after, Executing(id, false))
  {
    hide Plays, TransitionScript, AllowedTransition;
    PlayMore(was, Claimed(id), before, db, Executing(id, false), BeginReport(next));
    var reporting := Reporting(id, false, db.jobs[id], next);
    PlayMore(was, Claimed(id), before + [BeginReport(next)], db, reporting, EndReport(report));
    assert before + [BeginReport(next), EndReport(report)] == before + [BeginReport(next)] + [EndReport(report)];
  }

  lemma AllowedIsLive(current: State, next: State)
    requires AllowedTransition(current, next)
    ensures !current.Terminal()
  {
  }

  lemma LastHeardIsLive(state: State, heard: seq<Told>, next: State)
    requires AllowedTransition(StateTold(state, heard), next)
    ensures heard != [] ==> !StateTold(Queued, heard).Terminal()
  {
  }

  lemma MovedState(db: Db, write: Write, after: Db)
    requires write.id in db.jobs && TransitionMeaning(db, write, TransitionReply(after, Moved))
    ensures write.id in after.jobs && after.jobs[write.id].state == write.state
  {
  }

  lemma LookPlays(db: Db, id: JobId)
    ensures Plays(db, Claimed(id), [Look], db, if Live(db.jobs, id) then Checking(id) else Acking(id))
  {
    PlayNothing(db, Claimed(id));
    PlayMore(db, Claimed(id), [], db, Claimed(id), Look);
    assert [] + [Look] == [Look];
    hide Plays;
  }

  lemma FlagPlays(db: Db, id: JobId)
    requires Live(db.jobs, id)
    ensures Plays(db, Claimed(id), [Look, CheckFlag], db, if id in db.cancelFlags then Acking(id) else Executing(id, false))
  {
    hide Plays;
    LookPlays(db, id);
    PlayMore(db, Claimed(id), [Look], db, Checking(id), CheckFlag);
    assert [Look] + [CheckFlag] == [Look, CheckFlag];
  }

  lemma AckPlays(was: Db, id: JobId, trace: seq<Action>, db: Db)
    requires Plays(was, Claimed(id), trace, db, Acking(id))
    ensures Plays(was, Claimed(id), trace + [JobSystem.Ack], AckStep(db, id), Idle)
  {
    hide Plays, AckStep;
    PlayMore(was, Claimed(id), trace, db, Acking(id), JobSystem.Ack);
  }

  lemma SettleLooks(db: Db, id: JobId, ending: Ending, was: Db, before: seq<Action>)
    requires Plays(was, Claimed(id), before, db, Settling(id, ending))
    ensures Plays(was, Claimed(id), before + [LookAgain], db,
                  if id !in db.jobs then Stopped(Some(id))
                  else if db.jobs[id].state.Terminal() then Acking(id)
                  else Forcing(id, ending))
  {
    hide Plays;
    PlayMore(was, Claimed(id), before, db, Settling(id, ending), LookAgain);
  }

  /** Undisturbed, the forced transition is the machine's. */
  lemma ForcePlays(
    db: Db, id: JobId, ending: Ending, eventId: string, now: int, after: Db, was: Db, before: seq<Action>)
    requires Plays(was, Claimed(id), before, db, Settling(id, ending)) && Live(db.jobs, id)
    requires TransitionScript(db, ForcedWrite(id, ending, db.jobs[id], eventId, now)) == TransitionReply(after, Moved)
    ensures Plays(was, Claimed(id), before + [LookAgain, BeginForce, EndForce(eventId, now)], after, Acking(id))
  {
    hide Plays, TransitionScript;
    TransitionTable(db.jobs[id].state, Failed);
    SettleLooks(db, id, ending, was, before);
    var looked := before + [LookAgain];
    PlayMore(was, Claimed(id), looked, db, Forcing(id, ending), BeginForce);
    PlayMore(
      was, Claimed(id), looked + [BeginForce], db, ForcingWrite(id, ending, db.jobs[id]), EndForce(eventId, now));
    assert before + [LookAgain, BeginForce, EndForce(eventId, now)] == looked + [BeginForce] + [EndForce(eventId, now)];
  }

  lemma PlayNothing(db: Db, worker: JobSystem.Worker)
    ensures Plays(db, worker, [], db, worker)
  {
  }
}
