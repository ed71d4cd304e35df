/** The executor of resolution jobs: which states it reports for what its sources answer, and what one delivery of such
    a job comes to. The catalog, the verifier and the encoding of results are arbitrary. */
module JobResolution {
  import opened Wrappers
  import opened JobTypes
  import opened JobScripts
  import opened JobInvariants
  import opened JobTransition
  import opened JobSystem
  import opened JobSafety
  import opened JobStore
  import opened JobRunner

  /** What verifying a source comes to. */
  datatype Check = Good(link: string) | Bad(blocked: bool)

  /** What the payload and the catalog give: no request, no selection, or the sources to try with their answers. */
  datatype Case = Unreadable | NotSelected(needsQuality: bool) | Selected(checks: seq<Check>)

  datatype Outcome = Outcome(state: State, attempts: seq<Check>, link: Option<string>)

  /** How results are encoded, and the identifier and time of the n-th report. */
  datatype Says = Says(encode: Outcome -> string, stamp: nat -> (string, int))

  ghost predicate Encodes(says: Says, validJson: string -> bool) {
    forall outcome :: validJson(says.encode(outcome))
  }

  const INVALID_MESSAGE := "The resolution request is invalid."
  const CACHE_MESSAGE := "Checking for an existing coalesced resolution."
  const GONE_MESSAGE := "The selected release is no longer available."
  const QUALITY_MESSAGE := "Select a quality before resolving links."
  const SOURCE_MESSAGE := "Checking the preferred source."
  const BACKUP_MESSAGE := "Checking backup sources."
  const READY_MESSAGE := "Verified delivery links are ready."
  const NONE_MESSAGE := "No source returned a verified delivery link."
  const BLOCKED_MESSAGE := "All configured sources were blocked by verification policy."

  function Note(says: Says, n: nat, message: string, progress: int): Report {
    Report(message, progress, "", says.stamp(n).0, says.stamp(n).1)
  }

  function Final(says: Says, n: nat, message: string, outcome: Outcome): Report {
    Report(message, 100, says.encode(outcome), says.stamp(n).0, says.stamp(n).1)
  }

  // ----- what the sources decide -----

  /** So many sources are tried: up to the first good one, or all of them. */
  ghost predicate Tried(checks: seq<Check>, n: nat) {
    && n <= |checks|
    && (forall k :: 0 <= k < n - 1 ==> checks[k].Bad?)
    && (n < |checks| ==> n > 0 && checks[n - 1].Good?)
  }

  /** The state, the attempts and the link that a selection ends with. */
  ghost predicate Decides(checks: seq<Check>, n: nat, outcome: Outcome) {
    && n <= |checks| && outcome.attempts == checks[..n]
    && (outcome.state == Verified <==> exists check <- checks :: check.Good?)
    && (outcome.state == Blocked <==> forall check <- checks :: check.Bad? && check.blocked)
    && outcome.state in {Verified, Blocked, Failed}
    && (outcome.state == Verified ==> n > 0 && checks[n - 1].Good? && outcome.link == Some(checks[n - 1].link))
    && (outcome.state != Verified ==> outcome.link == None)
  }

  // ----- what is reported -----

  /** The states of an undisturbed selection, in order: the backup sources are reported once, before the second try. */
  function StatesTold(n: nat, last: State): seq<State> {
    [CheckingCache, CheckingPreferredSource] + (if n >= 2 then [CheckingBackupSource] else []) + [last]
  }

  ghost predicate HasStates(heard: seq<Told>, states: seq<State>) {
    |heard| == |states| && forall k :: 0 <= k < |heard| ==> heard[k].next == states[k]
  }

  ghost predicate EndsWith(heard: seq<Told>, says: Says, outcome: Outcome) {
    && heard != []
    && var last := heard[|heard| - 1];
       last.next == outcome.state && last.report.progress == 100 && last.report.result == says.encode(outcome)
  }

  /** What the executor's reports come to for a job in this state. A job that has reported anything before is not
      taken up again: its first report is refused. */
  ghost predicate Resolves(
    kind: Kind, state: State, given: Case, says: Says, heard: seq<Told>, ending: Ending, n: nat, outcome: Outcome)
  {
    if kind != Kind.Resolution || (state != Queued && !given.Unreadable?) then heard == [] && ending == Broke
    else
      && ending == Finished && EndsWith(heard, says, outcome)
      && match given
         case Unreadable => HasStates(heard, [Failed]) && outcome == Outcome(Failed, [], None)
         case NotSelected(_) => HasStates(heard, [CheckingCache, Failed]) && outcome == Outcome(Failed, [], None)
         case Selected(checks) =>
           Tried(checks, n) && Decides(checks, n, outcome) && HasStates(heard, StatesTold(n, outcome.state))
  }

  lemma HeardMore(state: State, calls: seq<Call>, more: Call, validJson: string -> bool)
    ensures Heard(state, calls + [more], validJson) ==
            match more
            case Ask => Heard(state, calls, validJson)
            case Tell(next, report) =>
              var before := Heard(state, calls, validJson);
              if Acceptable(StateTold(state, before), Told(next, report), validJson) then before + [Told(next, report)]
              else before
  {
    assert (calls + [more])[..|calls|] == calls;
  }

  lemma TellMore(state: State, calls: seq<Call>, heard: seq<Told>, next: State, report: Report, validJson: string -> bool)
    requires Heard(state, calls, validJson) == heard
    ensures Heard(state, calls + [Ask], validJson) == heard
    ensures Acceptable(StateTold(state, heard), Told(next, report), validJson) ==>
              Heard(state, calls + [Tell(next, report)], validJson) == heard + [Told(next, report)]
    ensures !Acceptable(StateTold(state, heard), Told(next, report), validJson) ==>
              Heard(state, calls + [Tell(next, report)], validJson) == heard
  {
    HeardMore(state, calls, Ask, validJson);
    HeardMore(state, calls, Tell(next, report), validJson);
    hide Heard, Acceptable;
  }

  lemma NothingHeard(state: State, validJson: string -> bool)
    ensures Heard(state, [], validJson) == []
  {
  }

  /** The first report is accepted exactly for a job that has reported nothing yet. */
  lemma Opening(state: State, report: Report, validJson: string -> bool)
    requires 0 <= report.progress <= 100 && report.result == ""
    ensures Heard(state, [Ask, Tell(CheckingCache, report)], validJson) ==
            if state == Queued then [Told(CheckingCache, report)] else []
  {
    TellMore(state, [], [], CheckingCache, report, validJson);
    assert [] + [Ask] == [Ask];
    TellMore(state, [Ask], [], CheckingCache, report, validJson);
    assert [Ask] + [Tell(CheckingCache, report)] == [Ask, Tell(CheckingCache, report)];
    assert [] + [Told(CheckingCache, report)] == [Told(CheckingCache, report)];
    hide Heard;
  }

  lemma TellFits(
    calls: seq<Call>, heard: seq<Told>, states: seq<State>, next: State, report: Report, validJson: string -> bool)
    requires Heard(Queued, calls, validJson) == heard && HasStates(heard, states) && states != []
    requires AllowedTransition(states[|states| - 1], next) && next != Queued
    requires 0 <= report.progress <= 100 && (report.result == "" || validJson(report.result))
    ensures Heard(Queued, calls + [Ask], validJson) == heard
    ensures Heard(Queued, calls + [Tell(next, report)], validJson) == heard + [Told(next, report)]
    ensures HasStates(heard + [Told(next, report)], states + [next])
  {
    TellMore(Queued, calls, heard, next, report, validJson);
    hide Heard;
  }

  lemma FoundGood(checks: seq<Check>, index: nat)
    requires index < |checks| && checks[index].Good? && forall k :: 0 <= k < index ==> checks[k].Bad?
    ensures Tried(checks, index + 1)
    ensures Decides(checks, index + 1, Outcome(Verified, checks[..index + 1], Some(checks[index].link)))
  {
    assert checks[index] in checks;
  }

  lemma FoundNone(checks: seq<Check>, allBlocked: bool)
    requires forall k :: 0 <= k < |checks| ==> checks[k].Bad?
    requires allBlocked <==> forall k :: 0 <= k < |checks| ==> checks[k].blocked
    ensures Tried(checks, |checks|)
    ensures Decides(checks, |checks|, Outcome(if allBlocked then Blocked else Failed, checks, None))
  {
    assert checks[..|checks|] == checks;
    assert forall k :: 0 <= k < |checks| ==> checks[k] in checks;
  }

  function Trying(n: nat): seq<State> {
    [CheckingCache, CheckingPreferredSource] + (if n >= 2 then [CheckingBackupSource] else [])
  }

  /** Once a source is being checked, the backup sources can follow once, and any of the three ends. */
  lemma TableWhileTrying(n: nat)
    ensures var last := Trying(n)[|Trying(n)| - 1];
            && AllowedTransition(last, Verified) && AllowedTransition(last, Blocked) && AllowedTransition(last, Failed)
            && (n == 1 ==> AllowedTransition(last, CheckingBackupSource))
    ensures Trying(2) == Trying(1) + [CheckingBackupSource]
    ensures n >= 1 && n != 1 ==> Trying(n + 1) == Trying(n)
    ensures Trying(0) == Trying(1) && Trying(n) != []
    ensures forall last :: StatesTold(n, last) == Trying(n) + [last]
  {
  }

  /** The sources, one after the other, until one is good. */
  method TrySources(
    checks: seq<Check>, says: Says, opening: seq<Call>, ghost soFar: seq<Told>, ghost validJson: string -> bool)
    returns (calls: seq<Call>, n: nat, outcome: Outcome)
    requires Encodes(says, validJson)
    requires Heard(Queued, opening, validJson) == soFar && HasStates(soFar, Trying(0))
    ensures Tried(checks, n) && Decides(checks, n, outcome)
    ensures HasStates(Heard(Queued, calls, validJson), StatesTold(n, outcome.state))
    ensures EndsWith(Heard(Queued, calls, validJson), says, outcome)
  {
    hide Heard, AllowedTransition, HasStates, Tried, Decides, Trying, StatesTold;
    calls, n := opening, 0;
    ghost var heard := soFar;
    var allBlocked, attempts := true, [];
    for index := 0 to |checks|
      invariant n == index && attempts == checks[..index] && (forall k :: 0 <= k < index ==> checks[k].Bad?)
      invariant allBlocked <==> forall k :: 0 <= k < index ==> checks[k].blocked
      invariant Heard(Queued, calls, validJson) == heard && HasStates(heard, Trying(n))
    {
      TableWhileTrying(index);
      TrysAgain(calls, heard, index, validJson);
      calls := calls + [Ask];
      if index == 1 {
        var report := Note(says, 2, BACKUP_MESSAGE, 55);
        TellFits(calls, heard, Trying(index), CheckingBackupSource, report, validJson);
        calls, heard := calls + [Tell(CheckingBackupSource, report)], heard + [Told(CheckingBackupSource, report)];
      }
      n := index + 1;
      TableWhileTrying(n);
      attempts := attempts + [checks[index]];
      if checks[index].Good? {
        outcome := Outcome(Verified, attempts, Some(checks[index].link));
        var report := Final(says, 3, READY_MESSAGE, Outcome(Verified, attempts, Some(checks[index].link)));
        TellFits(calls, heard, Trying(n), Verified, report, validJson);
        calls := calls + [Tell(Verified, report)];
        assert attempts == checks[..index + 1];
        FoundGood(checks, index);
        return;
      }
      allBlocked := allBlocked && checks[index].blocked;
    }
    TableWhileTrying(n);
    var last := if allBlocked then Blocked else Failed;
    var report := Final(says, 3, if allBlocked then BLOCKED_MESSAGE else NONE_MESSAGE, Outcome(last, attempts, None));
    TellFits(calls, heard, Trying(n), last, report, validJson);
    calls, outcome := calls + [Tell(last, report)], Outcome(last, attempts, None);
    assert attempts == checks;
    FoundNone(checks, allBlocked);
  }

  lemma TrysAgain(calls: seq<Call>, heard: seq<Told>, n: nat, validJson: string -> bool)
    requires Heard(Queued, calls, validJson) == heard
    ensures Heard(Queued, calls + [Ask], validJson) == heard
  {
    HeardMore(Queued, calls, Ask, validJson);
  }

  /** The executor, which stops at the first report that is refused. */
  method Resolve(kind: Kind, state: State, given: Case, says: Says, ghost validJson: string -> bool)
    returns (plan: Plan, n: nat, outcome: Outcome)
    requires !state.Terminal() && Encodes(says, validJson)
    ensures Resolves(kind, state, given, says, Heard(state, plan.calls, validJson), plan.ending, n, outcome)
  {
    hide Heard, Decides, Tried;
    n, outcome := 0, Outcome(Failed, [], None);
    assert Heard(state, [], validJson) == [] by { NothingHeard(state, validJson); }
    if kind != Kind.Resolution {
      return Plan([], Broke), n, outcome;
    }
    if given.Unreadable? {
      var report := Final(says, 0, INVALID_MESSAGE, Outcome(Failed, [], None));
      TellMore(state, [], [], Failed, report, validJson);
      assert [] + [Tell(Failed, report)] == [Tell(Failed, report)] && [] + [Told(Failed, report)] == [Told(Failed, report)];
      return Plan([Tell(Failed, report)], Finished), n, outcome;
    }
    var report := Note(says, 0, CACHE_MESSAGE, 5);
    var calls := [Ask, Tell(CheckingCache, report)];
    Opening(state, report, validJson);
    if state != Queued {
      return Plan(calls, Broke), n, outcome;
    }
    ghost var heard := [Told(CheckingCache, report)];
    match given {
      case NotSelected(needsQuality) =>
        report := Final(says, 1, if needsQuality then QUALITY_MESSAGE else GONE_MESSAGE, Outcome(Failed, [], None));
        TellMore(state, calls, heard, Failed, report, validJson);
        return Plan(calls + [Tell(Failed, report)], Finished), n, outcome;
      case Selected(checks) =>
        report := Note(says, 1, SOURCE_MESSAGE, 20);
        TellMore(state, calls, heard, Failed, report, validJson);
        calls := calls + [Ask];
        TellMore(state, calls, heard, CheckingPreferredSource, report, validJson);
        calls, heard := calls + [Tell(CheckingPreferredSource, report)], heard + [Told(CheckingPreferredSource, report)];
        calls, n, outcome := TrySources(checks, says, calls, heard, validJson);
        plan := Plan(calls, Finished);
    }
  }

  // ----- one delivery -----

  /** One undisturbed delivery of a live job to this executor. A resolution that starts afresh ends verified exactly if
      one of its sources is good, with the first good one's link, and blocked exactly if all are refused for safety.
      Every other one fails: also a resolution delivered again after it had reported anything, which is not resumed,
      whatever its sources would answer. */
  method ProcessResolution(runner: Runner, id: JobId, given: Case, says: Says, eventId: string, now: int)
    returns (n: nat, outcome: Outcome)
    requires runner.store.Valid() && Live(runner.store.jobs, id) && id !in runner.store.cancelFlags
    requires Encodes(says, runner.store.validJson)
    modifies runner.store`jobs, runner.store`coalesce, runner.store`events, runner.store`processing
    ensures runner.store.Valid() && id in runner.store.jobs
    ensures Concludes(old(runner.store.jobs)[id], runner.store.jobs[id], given, says, now, n, outcome)
  {
    hide DbInv, JobsKept, Heard, Resolves, Concludes, Reported, Delivered, Plays;
    var read := runner.store.Get(id);
    var plan;
    plan, n, outcome := Resolve(read.value.kind, read.value.state, given, says, runner.store.validJson);
    ghost var was := runner.store.View();
    var worker, trace := runner.Process(id, plan, eventId, now);
    Concluded(was, runner.store.View(), id, plan, given, says, runner.store.validJson, eventId, now, n, outcome);
  }

  /** What a live job is after one delivery. */
  ghost predicate Concludes(before: Job, after: Job, given: Case, says: Says, now: int, n: nat, outcome: Outcome) {
    if before.kind != Kind.Resolution || (before.state != Queued && !given.Unreadable?) then
      after == before.(state := Failed, progress := 100, result := "", updatedAt := now)
    else
      && after.state == outcome.state && after.progress == 100 && after.result == says.encode(outcome)
      && (given.Selected? ==> Tried(given.checks, n) && Decides(given.checks, n, outcome))
      && (!given.Selected? ==> outcome == Outcome(Failed, [], None))
  }

  lemma Concluded(
    was: Db, after: Db, id: JobId, plan: Plan, given: Case, says: Says, validJson: string -> bool,
    eventId: string, now: int, n: nat, outcome: Outcome)
    requires Live(was.jobs, id) && id in after.jobs
    requires Resolves(was.jobs[id].kind, was.jobs[id].state, given, says, Heard(was.jobs[id].state, plan.calls, validJson),
                      plan.ending, n, outcome)
    requires Reported(was, after, id, Delivered(was.jobs[id].state, plan, validJson, eventId, now))
    ensures Concludes(was.jobs[id], after.jobs[id], given, says, now, n, outcome)
  {
    hide Heard, Tried, HasStates, EventsTold;
    var heard := Heard(was.jobs[id].state, plan.calls, validJson);
    var delivered := Delivered(was.jobs[id].state, plan, validJson, eventId, now);
    assert after.jobs[id] == JobTold(was.jobs[id], delivered);
    if heard != [] {
      assert outcome.state in {Verified, Blocked, Failed};
      assert delivered == heard;
    } else {
      assert delivered == [] + [ForcedReport(plan.ending, eventId, now)];
    }
  }
}
