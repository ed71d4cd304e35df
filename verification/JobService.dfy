/** Resolution requests in front of the queue: which of them share a job. The JSON encoding and the
    hash are arbitrary functions, taken to be injective where that is needed. */
module JobService {
  import opened Wrappers
  import opened Trimming
  import opened JobTypes
  import opened JobScripts
  import opened JobInvariants
  import opened JobCreate
  import opened JobUnsubscribe
  import opened JobTransition
  import opened JobSystem
  import opened JobSafety

  datatype ResolutionRequest = ResolutionRequest(contentId: string, variantId: string, quality: Option<string>)

  // ----- the canonical request -----

  /** The request as it is encoded and hashed; a missing identifier or a blank quality is refused. */
  function Canonical(request: ResolutionRequest): Option<ResolutionRequest> {
    var content, variant := Trim(request.contentId), Trim(request.variantId);
    if content == "" || variant == "" then None
    else match request.quality
      case None => Some(ResolutionRequest(content, variant, None))
      case Some(quality) =>
        if Trim(quality) == "" then None else Some(ResolutionRequest(content, variant, Some(Trim(quality))))
  }

  /** A request is refused exactly if one of its identifiers, or a quality that it has, is blank; otherwise its fields are
      as they were but for the white space around them. */
  lemma CanonicalMeans(request: ResolutionRequest)
    ensures var canonical := Canonical(request);
            && (canonical.None? <==>
                  || Blank(request.contentId) || Blank(request.variantId)
                  || (request.quality.Some? && Blank(request.quality.value)))
            && (canonical.Some? ==>
                  && Pads(canonical.value.contentId, request.contentId)
                  && Pads(canonical.value.variantId, request.variantId)
                  && (canonical.value.quality.Some? <==> request.quality.Some?)
                  && (request.quality.Some? ==> Pads(canonical.value.quality.value, request.quality.value)))
  {
    TrimmedPads(request.contentId);
    TrimmedPads(request.variantId);
    if request.quality.Some? {
      TrimmedPads(request.quality.value);
    }
    hide Trim, Blank, Pads;
  }

  /** The value is the text without the white space around it. */
  ghost predicate Pads(value: string, text: string) {
    && value != "" && !IsSpace(value[0]) && !IsSpace(value[|value| - 1])
    && exists before, after :: PadsWith(value, text, before, after)
  }

  ghost predicate PadsWith(value: string, text: string, before: string, after: string) {
    Blank(before) && Blank(after) && text == before + value + after
  }

  lemma TrimmedPads(text: string)
    ensures Blank(text) <==> Trim(text) == ""
    ensures !Blank(text) ==> Pads(Trim(text), text)
  {
    var before, after := TrimMeans(text);
    hide Trim, IsSpace, Blank;
    assert PadsWith(Trim(text), text, before, after);
  }

  /** One way of encoding and hashing requests. */
  datatype Coding = Coding(encode: ResolutionRequest -> string, digest: string -> Fingerprint) {
    ghost predicate Injective() {
      && (forall a, b :: encode(a) == encode(b) ==> a == b)
      && (forall a, b :: digest(a) == digest(b) ==> a == b)
    }

    function Fingerprint(canonical: ResolutionRequest): JobTypes.Fingerprint {
      digest(encode(canonical))
    }

    function RequestFor(canonical: ResolutionRequest, key: SubscriberKey): CreateRequest {
      CreateRequest(Kind.Resolution, Fingerprint(canonical), key, encode(canonical))
    }
  }

  /** Every job was created with the fingerprint of its own payload. */
  ghost predicate Honest(coding: Coding, jobs: Jobs) {
    forall id <- jobs :: jobs[id].fingerprint == coding.digest(jobs[id].payload)
  }

  ghost predicate HonestStep(coding: Coding, step: Step) {
    step.Create? ==> step.request.fingerprint == coding.digest(step.request.payload)
  }

  lemma HonestAfterCreate(coding: Coding, db: Db, request: CreateRequest, draw: Draw, maxQueued: int)
    requires Honest(coding, db.jobs)
    requires DbInv(db) && draw.jobId !in db.jobs
    requires request.fingerprint == coding.digest(request.payload)
    ensures Honest(coding, CreateOrJoinScript(db, request, draw, maxQueued).db.jobs)
  {
    hide DbInv, CreateOrJoinScript, LogOf, SubscribersOf;
    var reply := CreateOrJoinScript(db, request, draw, maxQueued);
    CreateOrJoinMeans(db, request, draw, maxQueued);
    CreateOrJoinKeeps(db, request, draw, maxQueued);
    CreateOrJoinAddsOnlyCreated(db, request, draw, maxQueued);
    forall id <- reply.db.jobs
      ensures reply.db.jobs[id].fingerprint == coding.digest(reply.db.jobs[id].payload)
    {
      if id in db.jobs {
        assert JobKept(db.jobs[id], LogOf(db.events, id), reply.db.jobs[id], LogOf(reply.db.events, id));
      }
    }
  }

  lemma HonestStays(coding: Coding, s: System, step: Step)
    requires SystemInv(s) && Honest(coding, s.db.jobs)
    requires Enabled(s, step) && HonestStep(coding, step)
    ensures Honest(coding, Do(s, step).db.jobs)
  {
    hide DbInv, Conserved, WorkersSound, LeavingSound, CreateOrJoinScript, LogOf;
    if step.Create? {
      HonestAfterCreate(coding, s.db, step.request, step.draw, s.maxQueued);
    } else {
      StepKeeps(s, step);
      var after := Do(s, step).db;
      StepAddsNoJob(s, step);
      forall id <- after.jobs
        ensures after.jobs[id].fingerprint == coding.digest(after.jobs[id].payload)
      {
        assert JobKept(s.db.jobs[id], LogOf(s.db.events, id), after.jobs[id], LogOf(after.events, id));
      }
    }
  }

  lemma StepAddsNoJob(s: System, step: Step)
    requires SystemInv(s)
    requires Enabled(s, step) && !step.Create?
    ensures Do(s, step).db.jobs.Keys == s.db.jobs.Keys
  {
    hide DbInv, Conserved, LeavingSound, UnsubscribeScript, Act;
    match step
    case EndLeave(leave, eventId, now) => UnsubscribeKeys(s.db, leave, eventId, now);
    case Work(w, action) =>
      SoundAt(s.db.jobs, s.workers, w);
      ActAddsNoJob(s.db, s.workers[w], action);
    case _ =>
  }

  lemma ActAddsNoJob(db: Db, worker: Worker, action: Action)
    requires WorkerSound(db.jobs, worker)
    requires CanAct(db, worker, action)
    ensures Act(db, worker, action).0.jobs.Keys == db.jobs.Keys
  {
    hide TransitionScript;
    match action
    case EndReport(report) => TransitionScriptKeys(db, ReportedWrite(worker.id, worker.seen, worker.next, report));
    case EndForce(eventId, now) =>
      TransitionScriptKeys(db, ForcedWrite(worker.id, worker.ending, worker.seen, eventId, now));
    case _ =>
  }

  ghost predicate HonestRun(coding: Coding, steps: seq<Step>) {
    forall step <- steps :: HonestStep(coding, step)
  }

  lemma {:induction false} HonestAlways(coding: Coding, s: System, steps: seq<Step>)
    requires SystemInv(s) && Honest(coding, s.db.jobs)
    requires IsRun(s, steps) && HonestRun(coding, steps)
    ensures SystemInv(After(s, steps)) && Honest(coding, After(s, steps).db.jobs)
    decreases |steps|
  {
    hide SystemInv, Honest, Enabled, Do, HonestStep;
    if steps != [] {
      assert HonestStep(coding, steps[0]);
      HonestStays(coding, s, steps[0]);
      StepKeeps(s, steps[0]);
      HonestAlways(coding, Do(s, steps[0]), steps[1..]);
    }
  }

  ghost predicate ServiceReachable(coding: Coding, s: System) {
    exists steps ::
      && HonestRun(coding, steps)
      && IsRun(Initial(s.maxQueued), steps)
      && After(Initial(s.maxQueued), steps) == s
  }

  lemma ServiceInv(coding: Coding, s: System)
    requires ServiceReachable(coding, s)
    ensures SystemInv(s) && Honest(coding, s.db.jobs)
  {
    hide SystemInv, Enabled, Do, HonestRun;
    var steps :| HonestRun(coding, steps) && IsRun(Initial(s.maxQueued), steps) && After(Initial(s.maxQueued), steps) == s;
    InitialHolds(s.maxQueued);
    HonestAlways(coding, Initial(s.maxQueued), steps);
  }

  /** White space in front of a field and behind it. */
  datatype Padding = Padding(before: string, after: string) {
    predicate Valid() {
      Blank(before) && Blank(after)
    }

    function Around(s: string): string {
      before + s + after
    }
  }

  function Padded(request: ResolutionRequest, content: Padding, variant: Padding, quality: Padding): ResolutionRequest {
    ResolutionRequest(
      content.Around(request.contentId),
      variant.Around(request.variantId),
      if request.quality.Some? then Some(quality.Around(request.quality.value)) else None)
  }

  /** Spaces around the fields of a request, each its own, do not matter, whether it is accepted or refused. */
  lemma PaddedRequestsAreTheSame(request: ResolutionRequest, content: Padding, variant: Padding, quality: Padding)
    requires content.Valid() && variant.Valid() && quality.Valid()
    ensures Canonical(Padded(request, content, variant, quality)) == Canonical(request)
  {
    hide Trim;
    PaddingIsIgnored(content.before, request.contentId, content.after);
    PaddingIsIgnored(variant.before, request.variantId, variant.after);
    if request.quality.Some? {
      PaddingIsIgnored(quality.before, request.quality.value, quality.after);
    }
  }

  /** Two accepted requests whose jobs are both live have one job between them exactly if they are the same
      request up to surrounding spaces. */
  lemma RequestsShareExactly(
      coding: Coding, s: System, first: ResolutionRequest, second: ResolutionRequest, a: JobId, b: JobId)
    requires ServiceReachable(coding, s) && coding.Injective()
    requires Canonical(first).Some? && Canonical(second).Some?
    requires Live(s.db.jobs, a) && Live(s.db.jobs, b)
    requires s.db.jobs[a].fingerprint == coding.Fingerprint(Canonical(first).value)
    requires s.db.jobs[b].fingerprint == coding.Fingerprint(Canonical(second).value)
    ensures a == b <==> Canonical(first) == Canonical(second)
  {
    hide DbInv, Conserved, WorkersSound, LeavingSound, ServiceReachable, Canonical;
    ServiceInv(coding, s);
    FactsOf(s.db, a);
    FactsOf(s.db, b);
  }

  /** Whatever job a request is given, created, joined or its own earlier one, carries that request's
      canonical form as its payload: nobody is ever handed another request's work. */
  lemma AnswerMatchesRequest(coding: Coding, s: System, canonical: ResolutionRequest, key: SubscriberKey, draw: Draw)
    requires ServiceReachable(coding, s)
    requires coding.Injective()
    requires draw.jobId !in s.db.jobs
    ensures var reply := CreateOrJoinScript(s.db, coding.RequestFor(canonical, key), draw, s.maxQueued);
            reply.outcome != Full ==>
              && reply.id in reply.db.jobs
              && reply.db.jobs[reply.id].payload == coding.encode(canonical)
              && (forall other :: coding.encode(other) == reply.db.jobs[reply.id].payload ==> other == canonical)
  {
    hide DbInv, Conserved, WorkersSound, LeavingSound, ServiceReachable, CreateOrJoinScript;
    ServiceInv(coding, s);
    var request := coding.RequestFor(canonical, key);
    CreateOrJoinMeans(s.db, request, draw, s.maxQueued);
    HonestAfterCreate(coding, s.db, request, draw, s.maxQueued);
  }
}
