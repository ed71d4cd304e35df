/** The keys of one fingerprint with their expiry times. A key is gone as soon as its deadline has come; giving
    a missing key a deadline does nothing. The cancel flag and the queue are not part of this model. */
module JobExpiry {
  import opened Wrappers
  import opened JobTypes

  datatype Hash = Hash(live: bool, deadline: int)

  datatype Members = Members(keys: set<SubscriberKey>, deadline: int)

  datatype Slot = Slot(id: JobId, deadline: int)

  /** The event list's deadline is missing if the list was made by pushing to a missing key. */
  datatype Keys = Keys(
    now: int,
    jobs: map<JobId, Hash>,
    members: map<JobId, Members>,
    events: map<JobId, Option<int>>,
    entry: Option<Slot>,
    slots: map<SubscriberKey, Slot>)

  datatype Ttl = Ttl(job: int, terminal: int) {
    predicate Positive() {
      job >= 1 && terminal >= 1
    }
  }

  // ----- the configured times, in seconds -----

  const DEFAULT_JOB_TTL := 30 * 60
  const DEFAULT_TERMINAL_TTL := 10 * 60

  function Normalize(given: Ttl): Ttl {
    var job := if given.job <= 0 then DEFAULT_JOB_TTL else given.job;
    Ttl(job, if given.terminal <= 0 || given.terminal > job then DEFAULT_TERMINAL_TTL else given.terminal)
  }

  /** Half an hour and ten minutes unless given; a terminal time longer than the job's counts as not given. */
  lemma DefaultTimes(given: Ttl)
    ensures Normalize(given).job == if given.job >= 1 then given.job else 1800
    ensures Normalize(given).terminal ==
            if given.terminal >= 1 && given.terminal <= Normalize(given).job then given.terminal else 600
  {
  }

  /** Ended jobs can be kept longer than running ones: exactly when jobs live under ten minutes and the given
      terminal time is missing or longer than that. */
  lemma TerminalCanOutlast(given: Ttl)
    ensures Normalize(given).Positive()
    ensures Normalize(given).terminal > Normalize(given).job <==>
              0 < given.job < 600 && !(0 < given.terminal <= given.job)
  {
  }

  // ----- what happens to the keys -----

  datatype Step =
    | Wait(seconds: nat)
    | Arrive(key: SubscriberKey, newId: JobId)
    | Depart(id: JobId, key: SubscriberKey)
    | Record(id: JobId, ends: bool)

  /** Time passes, and every key whose deadline has come is gone. */
  function Later(s: Keys, seconds: nat): Keys {
    var now := s.now + seconds;
    Keys(
      now,
      map id | id in s.jobs && now < s.jobs[id].deadline :: s.jobs[id],
      map id | id in s.members && now < s.members[id].deadline :: s.members[id],
      map id | id in s.events && (s.events[id].None? || now < s.events[id].value) :: s.events[id],
      if s.entry.Some? && now < s.entry.value.deadline then s.entry else None,
      map key | key in s.slots && now < s.slots[key].deadline :: s.slots[key])
  }

  function Expire(events: map<JobId, Option<int>>, id: JobId, deadline: int): map<JobId, Option<int>> {
    if id in events then events[id := Some(deadline)] else events
  }

  function Push(events: map<JobId, Option<int>>, id: JobId): map<JobId, Option<int>> {
    if id in events then events else events[id := None]
  }

  function MembersOf(s: Keys, id: JobId): set<SubscriberKey> {
    if id in s.members then s.members[id].keys else {}
  }

  function Joined(s: Keys, ttl: Ttl, key: SubscriberKey, id: JobId): Keys
    requires id in s.jobs && s.entry.Some?
  {
    var deadline := s.now + ttl.job;
    var events := Expire(s.events, id, deadline);
    s.(jobs := s.jobs[id := s.jobs[id].(deadline := deadline)],
       members := s.members[id := Members(MembersOf(s, id) + {key}, deadline)],
       events := if key in MembersOf(s, id) then events else Push(events, id),
       entry := Some(s.entry.value.(deadline := deadline)),
       slots := s.slots[key := Slot(id, deadline)])
  }

  function Made(s: Keys, ttl: Ttl, key: SubscriberKey, id: JobId): Keys {
    var deadline := s.now + ttl.job;
    s.(jobs := s.jobs[id := Hash(true, deadline)],
       members := s.members[id := Members(MembersOf(s, id) + {key}, deadline)],
       events := Expire(Push(s.events, id), id, deadline),
       entry := Some(Slot(id, deadline)),
       slots := s.slots[key := Slot(id, deadline)])
  }

  /** Creating or joining, with room in the queue. */
  function Arrived(s: Keys, ttl: Ttl, key: SubscriberKey, newId: JobId): Keys {
    if key in s.slots then s
    else if s.entry.Some? && s.entry.value.id in s.jobs && s.jobs[s.entry.value.id].live then
      Joined(s, ttl, key, s.entry.value.id)
    else Made(s, ttl, key, newId)
  }

  /** A departure gives the job the time of an ended one, even when others stay and it goes on. */
  function Departed(s: Keys, ttl: Ttl, id: JobId, key: SubscriberKey): Keys {
    if id !in s.jobs || key !in s.slots || s.slots[key].id != id then s
    else if key !in MembersOf(s, id) then s.(slots := s.slots - {key})
    else
      var deadline := s.now + ttl.terminal;
      var left := MembersOf(s, id) - {key};
      var ends := left == {} && s.jobs[id].live;
      s.(jobs := s.jobs[id := Hash(s.jobs[id].live && !ends, deadline)],
         members := if left == {} then s.members - {id} else s.members[id := Members(left, deadline)],
         events := Expire(if ends then Push(s.events, id) else s.events, id, deadline),
         entry := if ends && s.entry.Some? && s.entry.value.id == id then None else s.entry,
         slots := s.slots - {key})
  }

  /** A state is written. The entry of the fingerprint gets the job's time whichever job it names. */
  function Recorded(s: Keys, ttl: Ttl, id: JobId, ends: bool): Keys {
    if id !in s.jobs || !s.jobs[id].live then s
    else
      var deadline := s.now + (if ends then ttl.terminal else ttl.job);
      s.(jobs := s.jobs[id := Hash(!ends, deadline)],
         members := if id in s.members then s.members[id := s.members[id].(deadline := deadline)] else s.members,
         events := Expire(Push(s.events, id), id, deadline),
         entry := if s.entry.None? then None
                  else if ends then (if s.entry.value.id == id then None else s.entry)
                  else Some(s.entry.value.(deadline := deadline)))
  }

  /** What the job, its subscribers, its events and its entry get: the job's time on arriving and on going on, the time of
      an ended one on ending and on every departure. */
  lemma TimesGiven(s: Keys, ttl: Ttl, id: JobId, key: SubscriberKey)
    requires id in s.jobs && s.jobs[id].live
    ensures var on := Recorded(s, ttl, id, false);
            && on.jobs[id] == Hash(true, s.now + ttl.job) && on.events[id] == Some(s.now + ttl.job)
            && (id in s.members ==> on.members[id].deadline == s.now + ttl.job)
            && (s.entry.Some? ==> on.entry == Some(s.entry.value.(deadline := s.now + ttl.job)))
    ensures var ended := Recorded(s, ttl, id, true);
            && ended.jobs[id] == Hash(false, s.now + ttl.terminal) && ended.events[id] == Some(s.now + ttl.terminal)
            && (id in s.members ==> ended.members[id].deadline == s.now + ttl.terminal)
            && (s.entry.Some? && s.entry.value.id == id ==> ended.entry == None)
    ensures key !in s.slots && s.entry.Some? && s.entry.value.id == id ==>
              var joined := Arrived(s, ttl, key, id);
              && joined.jobs[id] == Hash(true, s.now + ttl.job) && joined.slots[key] == Slot(id, s.now + ttl.job)
              && joined.entry == Some(Slot(id, s.now + ttl.job))
    ensures key in s.slots && s.slots[key].id == id && key in MembersOf(s, id) ==>
              Departed(s, ttl, id, key).jobs[id].deadline == s.now + ttl.terminal
  {
  }

  predicate Enabled(s: Keys, step: Step) {
    step.Arrive? ==> step.newId !in s.jobs && step.newId !in s.members && step.newId !in s.events
  }

  function Do(s: Keys, ttl: Ttl, step: Step): Keys {
    match step
    case Wait(seconds) => Later(s, seconds)
    case Arrive(key, newId) => Arrived(s, ttl, key, newId)
    case Depart(id, key) => Departed(s, ttl, id, key)
    case Record(id, ends) => Recorded(s, ttl, id, ends)
  }

  // ----- a job's keys live and die together -----

  /** The event list, and the subscriber set as long as it has members, have the deadline of the job's hash, and
      neither outlives it or is ever without a deadline. A live job has a subscriber. */
  ghost predicate Together(s: Keys) {
    && s.events.Keys == s.jobs.Keys && s.members.Keys <= s.jobs.Keys
    && (forall id <- s.jobs :: s.now < s.jobs[id].deadline && s.events[id] == Some(s.jobs[id].deadline))
    && (forall id <- s.members :: s.members[id].keys != {} && s.members[id].deadline == s.jobs[id].deadline)
    && (forall id <- s.jobs :: s.jobs[id].live ==> id in s.members)
  }

  lemma LaterKeeps(s: Keys, seconds: nat)
    requires Together(s)
    ensures Together(Later(s, seconds))
  {
  }

  lemma ArrivedKeeps(s: Keys, ttl: Ttl, key: SubscriberKey, newId: JobId)
    requires Together(s) && ttl.Positive() && newId !in s.jobs
    ensures Together(Arrived(s, ttl, key, newId))
  {
    MadeKeeps(s, ttl, key, newId);
    if s.entry.Some? && s.entry.value.id in s.jobs {
      JoinedKeeps(s, ttl, key, s.entry.value.id);
    }
    hide Together, Made, Joined;
  }

  lemma MadeKeeps(s: Keys, ttl: Ttl, key: SubscriberKey, id: JobId)
    requires Together(s) && ttl.Positive() && id !in s.jobs
    ensures Together(Made(s, ttl, key, id))
  {
  }

  lemma JoinedKeeps(s: Keys, ttl: Ttl, key: SubscriberKey, id: JobId)
    requires Together(s) && ttl.Positive() && id in s.jobs && s.entry.Some?
    ensures Together(Joined(s, ttl, key, id))
  {
  }

  lemma DepartedKeeps(s: Keys, ttl: Ttl, id: JobId, key: SubscriberKey)
    requires Together(s) && ttl.Positive()
    ensures Together(Departed(s, ttl, id, key))
  {
    if id in s.jobs && key in s.slots && s.slots[key].id == id && key in MembersOf(s, id) {
      var left := MembersOf(s, id) - {key};
      if left == {} {
        LastDepartureKeeps(s, ttl, id, key);
      } else {
        EarlyDepartureKeeps(s, ttl, id, key);
      }
    }
    hide Departed, MembersOf;
  }

  lemma LastDepartureKeeps(s: Keys, ttl: Ttl, id: JobId, key: SubscriberKey)
    requires Together(s) && ttl.Positive() && id in s.jobs && key in s.slots && s.slots[key].id == id
    requires key in MembersOf(s, id) && MembersOf(s, id) - {key} == {}
    ensures Together(Departed(s, ttl, id, key))
  {
    var t := Departed(s, ttl, id, key);
    assert t.jobs == s.jobs[id := Hash(false, s.now + ttl.terminal)] && t.members == s.members - {id};
    assert t.events == s.events[id := Some(s.now + ttl.terminal)];
    hide Departed;
  }

  lemma EarlyDepartureKeeps(s: Keys, ttl: Ttl, id: JobId, key: SubscriberKey)
    requires Together(s) && ttl.Positive() && id in s.jobs && key in s.slots && s.slots[key].id == id
    requires key in MembersOf(s, id) && MembersOf(s, id) - {key} != {}
    ensures Together(Departed(s, ttl, id, key))
  {
    var t, deadline := Departed(s, ttl, id, key), s.now + ttl.terminal;
    assert t.jobs == s.jobs[id := Hash(s.jobs[id].live, deadline)];
    assert t.members == s.members[id := Members(MembersOf(s, id) - {key}, deadline)];
    assert t.events == s.events[id := Some(deadline)];
    hide Departed, MembersOf;
  }

  lemma RecordedKeeps(s: Keys, ttl: Ttl, id: JobId, ends: bool)
    requires Together(s) && ttl.Positive()
    ensures Together(Recorded(s, ttl, id, ends))
  {
  }

  /** Whatever clients and workers do and however long it takes. */
  lemma StepKeepsTogether(s: Keys, ttl: Ttl, step: Step)
    requires Together(s) && ttl.Positive() && Enabled(s, step)
    ensures Together(Do(s, ttl, step))
  {
    hide Together, Later, Arrived, Departed, Recorded;
    match step
    case Wait(seconds) => LaterKeeps(s, seconds);
    case Arrive(key, newId) => ArrivedKeeps(s, ttl, key, newId);
    case Depart(id, key) => DepartedKeeps(s, ttl, id, key);
    case Record(id, ends) => RecordedKeeps(s, ttl, id, ends);
  }

  // ----- one live job, as long as nobody's departure reaches past the entry -----

  /** A departure from a live job that others still want. */
  predicate LeavesEarly(s: Keys, step: Step) {
    && step.Depart? && step.id in s.jobs && s.jobs[step.id].live
    && step.key in s.slots && s.slots[step.key].id == step.id
    && step.key in MembersOf(s, step.id) && MembersOf(s, step.id) != {step.key}
  }

  /** The time the script is about to give the job ends after the entry's. The script could ask this first. */
  predicate Overreaches(s: Keys, ttl: Ttl, step: Step) {
    LeavesEarly(s, step) && (s.entry.Some? ==> s.now + ttl.terminal > s.entry.value.deadline)
  }

  /** Every live job is named by the entry, which lasts at least as long. */
  ghost predicate EntryCovers(s: Keys) {
    forall id <- s.jobs :: s.jobs[id].live ==>
      s.entry.Some? && s.entry.value.id == id && s.jobs[id].deadline <= s.entry.value.deadline
  }

  /** Of all steps exactly the departures that overreach lose the cover. */
  lemma StepKeepsCover(s: Keys, ttl: Ttl, step: Step)
    requires Together(s) && EntryCovers(s) && ttl.Positive() && Enabled(s, step)
    ensures EntryCovers(Do(s, ttl, step)) <==> !Overreaches(s, ttl, step)
  {
    if Overreaches(s, ttl, step) {
      assert Do(s, ttl, step).jobs[step.id] == Hash(true, s.now + ttl.terminal);
    }
  }

  /** The entry names the live job and lasts exactly as long. */
  ghost predicate EntryLasts(s: Keys) {
    && (forall id <- s.jobs :: s.jobs[id].live ==> s.entry == Some(Slot(id, s.jobs[id].deadline)))
    && (s.entry.Some? ==> s.entry.value.id in s.jobs && s.jobs[s.entry.value.id].live)
  }

  lemma StepKeepsEntry(s: Keys, ttl: Ttl, step: Step)
    requires Together(s) && EntryLasts(s) && ttl.Positive() && Enabled(s, step) && !LeavesEarly(s, step)
    ensures EntryLasts(Do(s, ttl, step))
  {
  }

  // ----- runs -----

  const NOTHING := Keys(0, map[], map[], map[], None, map[])

  ghost predicate IsRun(s: Keys, ttl: Ttl, steps: seq<Step>)
    decreases |steps|
  {
    steps != [] ==> Enabled(s, steps[0]) && IsRun(Do(s, ttl, steps[0]), ttl, steps[1..])
  }

  ghost function After(s: Keys, ttl: Ttl, steps: seq<Step>): Keys
    requires IsRun(s, ttl, steps)
    decreases |steps|
  {
    if steps == [] then s else After(Do(s, ttl, steps[0]), ttl, steps[1..])
  }

  ghost predicate NobodyLeavesEarly(s: Keys, ttl: Ttl, steps: seq<Step>)
    requires IsRun(s, ttl, steps)
    decreases |steps|
  {
    steps != [] ==> !LeavesEarly(s, steps[0]) && NobodyLeavesEarly(Do(s, ttl, steps[0]), ttl, steps[1..])
  }

  /** Along every run a job's hash, events and subscribers share one deadline; and as long as nobody leaves a live
      job to others, its entry shares it too. */
  lemma {:induction false} RunKeepsDeadlines(s: Keys, ttl: Ttl, steps: seq<Step>)
    requires ttl.Positive() && IsRun(s, ttl, steps) && Together(s)
    ensures Together(After(s, ttl, steps))
    ensures EntryLasts(s) && NobodyLeavesEarly(s, ttl, steps) ==> EntryLasts(After(s, ttl, steps))
    decreases |steps|
  {
    hide Together, EntryLasts, LeavesEarly, Do, Enabled;
    if steps != [] {
      StepKeepsTogether(s, ttl, steps[0]);
      if EntryLasts(s) && !LeavesEarly(s, steps[0]) {
        StepKeepsEntry(s, ttl, steps[0]);
      }
      RunKeepsDeadlines(Do(s, ttl, steps[0]), ttl, steps[1..]);
    }
  }

  ghost predicate NobodyOverreaches(s: Keys, ttl: Ttl, steps: seq<Step>)
    requires IsRun(s, ttl, steps)
    decreases |steps|
  {
    steps != [] ==> !Overreaches(s, ttl, steps[0]) && NobodyOverreaches(Do(s, ttl, steps[0]), ttl, steps[1..])
  }

  /** The entry goes on covering the live job through every run in which no departure overreaches, however many
      subscribers leave. */
  lemma {:induction false} RunKeepsCover(s: Keys, ttl: Ttl, steps: seq<Step>)
    requires ttl.Positive() && IsRun(s, ttl, steps) && Together(s) && EntryCovers(s)
    requires NobodyOverreaches(s, ttl, steps)
    ensures Together(After(s, ttl, steps)) && EntryCovers(After(s, ttl, steps))
    decreases |steps|
  {
    hide Together, EntryCovers, Overreaches, Do, Enabled;
    if steps != [] {
      StepKeepsTogether(s, ttl, steps[0]);
      StepKeepsCover(s, ttl, steps[0]);
      RunKeepsCover(Do(s, ttl, steps[0]), ttl, steps[1..]);
    }
  }

  ghost predicate OneLive(s: Keys) {
    forall a, b :: a in s.jobs && b in s.jobs && s.jobs[a].live && s.jobs[b].live ==> a == b
  }

  lemma OneLiveWithoutOverreach(ttl: Ttl, steps: seq<Step>)
    requires ttl.Positive() && IsRun(NOTHING, ttl, steps) && NobodyOverreaches(NOTHING, ttl, steps)
    ensures OneLive(After(NOTHING, ttl, steps))
  {
    RunKeepsCover(NOTHING, ttl, steps);
  }

  // ----- what an early departure does -----

  /** However often the job has been left before: an early departure gives it the time of an ended job and leaves
      its entry the time it had. A second live job can then be made, after some wait, exactly when the job's new
      deadline is past its entry's. */
  lemma DepartureSplitsDeadlines(s: Keys, ttl: Ttl, id: JobId, key: SubscriberKey, other: SubscriberKey, newId: JobId)
    requires Together(s) && EntryCovers(s) && ttl.Positive() && LeavesEarly(s, Depart(id, key))
    requires other !in s.slots && newId !in s.jobs
    ensures var t := Departed(s, ttl, id, key);
            && id in t.jobs && t.jobs[id] == Hash(true, s.now + ttl.terminal)
            && s.entry.Some? && t.entry == s.entry
            && ((exists seconds: nat :: !OneLive(Arrived(Later(t, seconds), ttl, other, newId))) <==>
                  s.now + ttl.terminal > s.entry.value.deadline)
  {
    var t := Departed(s, ttl, id, key);
    if s.now + ttl.terminal > s.entry.value.deadline {
      SecondLiveJob(s, ttl, id, key, other, newId);
    }
    forall seconds: nat | s.now + ttl.terminal <= s.entry.value.deadline
      ensures OneLive(Arrived(Later(t, seconds), ttl, other, newId))
    {
      StillOneLiveJob(s, ttl, id, key, other, newId, seconds);
    }
  }

  lemma SecondLiveJob(s: Keys, ttl: Ttl, id: JobId, key: SubscriberKey, other: SubscriberKey, newId: JobId)
    requires Together(s) && EntryCovers(s) && ttl.Positive() && LeavesEarly(s, Depart(id, key))
    requires other !in s.slots && newId !in s.jobs
    requires s.now + ttl.terminal > s.entry.value.deadline
    ensures s.entry.value.deadline > s.now
    ensures !OneLive(Arrived(Later(Departed(s, ttl, id, key), s.entry.value.deadline - s.now), ttl, other, newId))
  {
    var late := Later(Departed(s, ttl, id, key), s.entry.value.deadline - s.now);
    assert id in late.jobs && late.jobs[id].live && late.entry.None?;
    var after := Arrived(late, ttl, other, newId);
    assert newId in after.jobs && after.jobs[newId].live && after.jobs[id].live;
  }

  lemma StillOneLiveJob(
    s: Keys, ttl: Ttl, id: JobId, key: SubscriberKey, other: SubscriberKey, newId: JobId, seconds: nat)
    requires Together(s) && EntryCovers(s) && ttl.Positive() && LeavesEarly(s, Depart(id, key))
    requires other !in s.slots && newId !in s.jobs
    requires s.now + ttl.terminal <= s.entry.value.deadline
    ensures OneLive(Arrived(Later(Departed(s, ttl, id, key), seconds), ttl, other, newId))
  {
    assert s.entry.Some?;
    hide Together, EntryCovers, Later, Departed, Arrived, OneLive;
    var t := Departed(s, ttl, id, key);
    var late := Later(t, seconds);
    SafeStep(s, ttl, Depart(id, key));
    SafeStep(t, ttl, Wait(seconds));
    StillFresh(s, ttl, id, key, newId, seconds);
    SafeStep(late, ttl, Arrive(other, newId));
    CoverIsOne(Arrived(late, ttl, other, newId));
  }

  lemma SafeStep(s: Keys, ttl: Ttl, step: Step)
    requires Together(s) && EntryCovers(s) && ttl.Positive() && Enabled(s, step) && !Overreaches(s, ttl, step)
    ensures Together(Do(s, ttl, step)) && EntryCovers(Do(s, ttl, step))
  {
    hide Together, EntryCovers, Do, Enabled, Overreaches;
    StepKeepsTogether(s, ttl, step);
    StepKeepsCover(s, ttl, step);
  }

  lemma StillFresh(s: Keys, ttl: Ttl, id: JobId, key: SubscriberKey, newId: JobId, seconds: nat)
    requires Together(s) && newId !in s.jobs
    ensures Enabled(Later(Departed(s, ttl, id, key), seconds), Arrive(key, newId))
  {
  }

  lemma CoverIsOne(s: Keys)
    requires EntryCovers(s)
    ensures OneLive(s)
  {
  }

  /** When the time of an ended job is shorter than what the job had left, the departure of one subscriber takes
      the job away from the others early: it is gone, unended, while it would still have been there. */
  lemma DepartureCutsLifeShort(s: Keys, ttl: Ttl, id: JobId, key: SubscriberKey)
    requires Together(s) && ttl.Positive() && LeavesEarly(s, Depart(id, key))
    ensures s.now + ttl.terminal < s.jobs[id].deadline <==>
              exists seconds: nat :: id !in Later(Departed(s, ttl, id, key), seconds).jobs && id in Later(s, seconds).jobs
  {
    if s.now + ttl.terminal < s.jobs[id].deadline {
      assert id !in Later(Departed(s, ttl, id, key), ttl.terminal).jobs && id in Later(s, ttl.terminal).jobs;
    }
  }

  lemma {:induction false} RunSteps(s: Keys, ttl: Ttl, first: Step, rest: seq<Step>)
    requires Enabled(s, first) && IsRun(Do(s, ttl, first), ttl, rest)
    ensures IsRun(s, ttl, [first] + rest) && After(s, ttl, [first] + rest) == After(Do(s, ttl, first), ttl, rest)
  {
    hide Enabled, Do;
    assert ([first] + rest)[0] == first && ([first] + rest)[1..] == rest;
  }

  lemma ThreeSteps(s: Keys, ttl: Ttl, a: Step, b: Step, c: Step)
    requires Enabled(s, a) && Enabled(Do(s, ttl, a), b) && Enabled(Do(Do(s, ttl, a), ttl, b), c)
    ensures IsRun(s, ttl, [a] + ([b] + [c]))
    ensures After(s, ttl, [a] + ([b] + [c])) == Do(Do(Do(s, ttl, a), ttl, b), ttl, c)
  {
    hide Enabled, Do;
    assert [c] + [] == [c];
    RunSteps(Do(Do(s, ttl, a), ttl, b), ttl, c, []);
    RunSteps(Do(s, ttl, a), ttl, b, [c]);
    RunSteps(s, ttl, a, [b] + [c]);
  }

  lemma SharedIsSound(ttl: Ttl)
    requires ttl.job > 1500
    ensures Together(Shared(ttl)) && EntryCovers(Shared(ttl)) && LeavesEarly(Shared(ttl), Depart("a", "k1"))
  {
  }

  lemma ThirdCanArrive(ttl: Ttl)
    ensures Enabled(Later(Departed(Shared(ttl), ttl, "a", "k1"), 300), Arrive("k3", "c"))
  {
  }

  /** With the times configured by default: a departure in the twenty-fifth minute and an arrival in the thirtieth
      give two live jobs with one fingerprint. */
  lemma TwoLiveJobs() returns (steps: seq<Step>)
    ensures IsRun(NOTHING, Ttl(1800, 600), steps)
    ensures !OneLive(After(NOTHING, Ttl(1800, 600), steps))
  {
    var ttl := Ttl(DEFAULT_JOB_TTL, DEFAULT_TERMINAL_TTL);
    var s := Shared(ttl);
    hide Together, EntryCovers, LeavesEarly, Departed, Later, Arrived, OneLive, IsRun, After;
    SharedIsSound(ttl);
    SecondLiveJob(s, ttl, "a", "k1", "k3", "c");
    ThirdCanArrive(ttl);
    ThreeSteps(s, ttl, Depart("a", "k1"), Wait(300), Arrive("k3", "c"));
    steps := SharedThen(ttl, s, [Depart("a", "k1")] + ([Wait(300)] + [Arrive("k3", "c")]));
  }

  /** Two subscribers of one job, twenty-five minutes after they came. */
  ghost function Shared(ttl: Ttl): Keys {
    var job := Slot("a", ttl.job);
    Keys(1500, map["a" := Hash(true, ttl.job)], map["a" := Members({"k1", "k2"}, ttl.job)],
         map["a" := Some(ttl.job)], Some(job), map["k1" := job, "k2" := job])
  }

  lemma SharedThen(ttl: Ttl, s: Keys, rest: seq<Step>) returns (steps: seq<Step>)
    requires ttl.job > 1500 && s == Shared(ttl) && IsRun(s, ttl, rest)
    ensures IsRun(NOTHING, ttl, steps) && After(NOTHING, ttl, steps) == After(s, ttl, rest)
  {
    var one := Arrived(NOTHING, ttl, "k1", "a");
    var two := Arrived(one, ttl, "k2", "b");
    assert two.members["a"].keys == {"k1", "k2"};
    assert Later(two, 1500) == s;
    RunSteps(two, ttl, Wait(1500), rest);
    RunSteps(one, ttl, Arrive("k2", "b"), [Wait(1500)] + rest);
    RunSteps(NOTHING, ttl, Arrive("k1", "a"), [Arrive("k2", "b")] + ([Wait(1500)] + rest));
    steps := [Arrive("k1", "a")] + ([Arrive("k2", "b")] + ([Wait(1500)] + rest));
  }
}
