/**
 Idempotent ingestion: a request claims its ingestion id in Redis, checks the camera's active mode,
 uploads its frames and queues a job, or releases the claim when one of these raises. Requests interleave
 freely between these calls; scheduler passes set the active modes that they check.
 */
module Ingestion {
  import opened Domain
  import opened Scheduler

  const IDEMPOTENCY_TTL_SECS := 86_400

  function ClaimTtl(): Time {
    Seconds(IDEMPOTENCY_TTL_SECS)
  }

  /******* State *******/

  datatype Request = Request(ingestion: Id, tenant: Id, camera: Id, region: Option<Id>, mode: Id, capturedAt: Time)

  /** The claims of the edge token. */
  datatype Auth = Auth(tenant: Id, camera: Id)

  datatype ClaimKey = ClaimKey(tenant: Id, ingestion: Id)

  datatype Error = NoActiveMode | WrongMode | Unavailable

  /**
   Where a request is. It ends queued, as a duplicate, mismatched with its token, or failed; a stranded
   one has failed and could not delete its claim either.
   */
  datatype Phase =
    | Claimed
    | Checked(checkedAt: Time)
    | Uploaded(checkedAt: Time)
    | Releasing(error: Error)
    | Queued
    | Duplicate
    | Mismatch
    | Failed(error: Error)
    | Stranded(error: Error)

  datatype Call = Call(request: Request, claimedAt: Time, phase: Phase)

  /** A job on the ingest stream, and the call that queued it. */
  datatype Job = Job(call: Id, request: Request, checkedAt: Time)

  /** A pass of the scheduler: it may have been cut short. */
  datatype Tick = Tick(config: Config, brokenAt: Option<nat>, at: Time)

  /** `claims` maps a key to its expiry. `calls` and `ticks` are the history of requests and scheduler passes. */
  datatype State = State(
    now: Time,
    modes: Modes,
    claims: map<ClaimKey, Time>,
    stream: seq<Job>,
    calls: map<Id, Call>,
    ticks: seq<Tick>)

  function KeyOf(r: Request): ClaimKey {
    ClaimKey(r.tenant, r.ingestion)
  }

  predicate Live(claims: map<ClaimKey, Time>, key: ClaimKey, at: Time) {
    key in claims && at < claims[key]
  }

  /** GET of a camera's active mode. */
  function ActiveMode(modes: Modes, camera: Id, at: Time): Option<Id> {
    if camera in modes && at < modes[camera].expiresAt then Some(modes[camera].mode) else None
  }

  /******* Steps *******/

  datatype Action =
    | Begin(call: Id, auth: Auth, request: Request, reached: bool)
    | Check(call: Id, reached: bool)
    | Upload(call: Id, ok: bool)
    | Enqueue(call: Id, ok: bool)
    | Release(call: Id, ok: bool)
    | Pass(config: Config, brokenAt: Option<nat>)

  datatype Step = Step(action: Action, at: Time)

  ghost predicate Enabled(s: State, step: Step) {
    && s.now <= step.at
    && match step.action
       case Begin(c, _, _, _) => c !in s.calls
       case Check(c, _) => c in s.calls && s.calls[c].phase.Claimed?
       case Upload(c, _) => c in s.calls && s.calls[c].phase.Checked?
       case Enqueue(c, _) => c in s.calls && s.calls[c].phase.Uploaded?
       case Release(c, _) => c in s.calls && s.calls[c].phase.Releasing?
       case Pass(config, _) => ValidConfig(config)
  }

  function Moved(s: State, c: Id, phase: Phase): State
    requires c in s.calls
  {
    s.(calls := s.calls[c := s.calls[c].(phase := phase)])
  }

  /** The outcome of the active-mode check. */
  function CheckMode(modes: Modes, r: Request, at: Time, reached: bool): Phase {
    if !reached then Releasing(Unavailable)
    else
      var active := ActiveMode(modes, r.camera, at);
      if active.None? then Releasing(NoActiveMode)
      else if active.value != r.mode then Releasing(WrongMode)
      else Checked(at)
  }

  ghost function Effect(s: State, step: Step): State
    requires Enabled(s, step)
  {
    var at := step.at;
    match step.action
    case Begin(c, auth, r, reached) =>
      if r.tenant != auth.tenant || r.camera != auth.camera then s.(calls := s.calls[c := Call(r, at, Mismatch)])
      else if !reached then s.(calls := s.calls[c := Call(r, at, Failed(Unavailable))])
      else if Live(s.claims, KeyOf(r), at) then s.(calls := s.calls[c := Call(r, at, Duplicate)])
      else s.(claims := s.claims[KeyOf(r) := at + ClaimTtl()], calls := s.calls[c := Call(r, at, Claimed)])
    case Check(c, reached) => Moved(s, c, CheckMode(s.modes, s.calls[c].request, at, reached))
    case Upload(c, ok) => Moved(s, c, if ok then Uploaded(s.calls[c].phase.checkedAt) else Releasing(Unavailable))
    case Enqueue(c, ok) =>
      if ok then
        Moved(s, c, Queued).(stream := s.stream + [Job(c, s.calls[c].request, s.calls[c].phase.checkedAt)])
      else Moved(s, c, Releasing(Unavailable))
    case Release(c, ok) =>
      var error := s.calls[c].phase.error;
      if ok then Moved(s, c, Failed(error)).(claims := s.claims - {KeyOf(s.calls[c].request)})
      else Moved(s, c, Stranded(error))
    case Pass(config, brokenAt) =>
      s.(modes := ModesAfter(s.modes, config, brokenAt, at), ticks := s.ticks + [Tick(config, brokenAt, at)])
  }

  ghost function Next(s: State, step: Step): State {
    if Enabled(s, step) then Effect(s, step).(now := step.at) else s
  }

  ghost function After(s: State, run: seq<Step>): State {
    if |run| == 0 then s else Next(After(s, run[..|run| - 1]), run[|run| - 1])
  }

  predicate Initial(s: State) {
    s.modes == map[] && s.claims == map[] && s.stream == [] && s.calls == map[] && s.ticks == []
  }

  /** The request is between winning its claim and its answer. */
  predicate InFlight(c: Call) {
    c.phase.Claimed? || c.phase.Checked? || c.phase.Uploaded? || c.phase.Releasing?
  }

  /******* The service *******/

  /** How the external calls of a request turn out. */
  datatype Plan = Plan(claimReached: bool, modeRead: bool, uploaded: bool, enqueued: bool, released: bool)

  /** A request that runs alone; steps that its earlier ones rule out do nothing. */
  function SoloRun(c: Id, auth: Auth, r: Request, plan: Plan, at: Time): seq<Step> {
    [Step(Begin(c, auth, r, plan.claimReached), at),
     Step(Check(c, plan.modeRead), at),
     Step(Upload(c, plan.uploaded), at),
     Step(Enqueue(c, plan.enqueued), at),
     Step(Release(c, plan.released), at)]
  }

  class IngestionService {
    var now: Time
    var modes: Modes
    var claims: map<ClaimKey, Time>
    var stream: seq<Job>
    ghost var calls: map<Id, Call>
    ghost var ticks: seq<Tick>

    ghost function Model(): State
      reads this
    {
      State.State(now, modes, claims, stream, calls, ticks)
    }

    constructor (start: Time)
      ensures Initial(Model()) && now == start
    {
      now, modes, claims, stream, calls, ticks := start, map[], map[], [], map[], [];
    }

    /** SET NX with an expiry: true when the key was absent and has been set; none when the call raises. */
    method SetKeyNx(key: ClaimKey, at: Time, reached: bool) returns (set_: Option<bool>)
      modifies this`claims
      ensures set_ == if reached then Some(!Live(old(claims), key, at)) else None
      ensures claims == if set_ == Some(true) then old(claims)[key := at + ClaimTtl()] else old(claims)
    {
      if !reached {
        return None;
      }
      if key in claims && at < claims[key] {
        return Some(false);
      }
      claims := claims[key := at + Seconds(IDEMPOTENCY_TTL_SECS)];
      return Some(true);
    }

    /** What may raise between the claim and the answer, in order; none when the job is queued. */
    method ValidateUploadEnqueue(c: Id, r: Request, plan: Plan, at: Time) returns (error: Option<Error>)
      modifies this`stream
      ensures
        var check := CheckMode(modes, r, at, plan.modeRead);
        error == if check.Releasing? then Some(check.error)
                 else if plan.uploaded && plan.enqueued then None else Some(Unavailable)
      ensures stream == if error.None? then old(stream) + [Job(c, r, at)] else old(stream)
    {
      if !plan.modeRead {
        return Some(Unavailable);
      }
      var active := ActiveMode(modes, r.camera, at);
      if active.None? {
        return Some(NoActiveMode);
      }
      if active.value != r.mode {
        return Some(WrongMode);
      }
      if !plan.uploaded || !plan.enqueued {
        return Some(Unavailable);
      }
      stream := stream + [Job(c, r, at)];
      return None;
    }

    /** Accepts one sequence; run alone it has exactly the effect of the interleaved protocol's steps. */
    method AcceptSequence(c: Id, auth: Auth, r: Request, plan: Plan, at: Time) returns (phase: Phase)
      requires c !in calls && now <= at
      modifies this
      ensures Model() == After(old(Model()), SoloRun(c, auth, r, plan, at))
      ensures c in calls && calls[c] == Call(r, at, phase) && !InFlight(calls[c])
    {
      now := at;
      if r.tenant != auth.tenant || r.camera != auth.camera {
        phase := Mismatch;
      } else {
        var key := ClaimKey(r.tenant, r.ingestion);
        var claimed := SetKeyNx(key, at, plan.claimReached);
        if claimed.None? {
          phase := Failed(Unavailable);
        } else if !claimed.value {
          phase := Duplicate;
        } else {
          var error := ValidateUploadEnqueue(c, r, plan, at);
          if error.None? {
            phase := Queued;
          } else if plan.released {
            claims := claims - {key};
            phase := Failed(error.value);
          } else {
            phase := Stranded(error.value);
          }
        }
      }
      calls := calls[c := Call(r, at, phase)];
      SoloRunEffect(old(Model()), c, auth, r, plan, at);
    }
  }

  /** A run of five steps is its steps one after the other. */
  lemma FiveSteps(s: State, run: seq<Step>)
    requires |run| == 5
    ensures After(s, run) == Next(Next(Next(Next(Next(s, run[0]), run[1]), run[2]), run[3]), run[4])
  {
    assert run[..4][..3] == run[..3] && run[..3][..2] == run[..2] && run[..2][..1] == run[..1] && run[..1][..0] == [];
    assert After(s, []) == s;
    assert After(s, run[..1]) == Next(s, run[0]);
    assert After(s, run[..2]) == Next(After(s, run[..1]), run[1]);
    assert After(s, run[..3]) == Next(After(s, run[..2]), run[2]);
    assert After(s, run[..4]) == Next(After(s, run[..3]), run[3]);
  }

  /** The rest of a request that owns its claim and runs alone. */
  lemma OwnerEffect(s: State, c: Id, r: Request, plan: Plan, at: Time)
    requires s.now == at && c in s.calls && s.calls[c] == Call(r, at, Claimed)
    ensures
      var s' := Next(Next(Next(Next(s, Step(Check(c, plan.modeRead), at)), Step(Upload(c, plan.uploaded), at)),
                          Step(Enqueue(c, plan.enqueued), at)), Step(Release(c, plan.released), at));
      var check := CheckMode(s.modes, r, at, plan.modeRead);
      s' == if !check.Releasing? && plan.uploaded && plan.enqueued
        then Moved(s, c, Queued).(stream := s.stream + [Job(c, r, at)])
            else
              var error := if check.Releasing? then check.error else Unavailable;
              if plan.released then Moved(s, c, Failed(error)).(claims := s.claims - {KeyOf(r)})
              else Moved(s, c, Stranded(error))
  {
    var s2 := Next(s, Step(Check(c, plan.modeRead), at));
    assert s2 == Moved(s, c, CheckMode(s.modes, r, at, plan.modeRead));
    var s3 := Next(s2, Step(Upload(c, plan.uploaded), at));
    assert s3.calls == s.calls[c := s3.calls[c]];
    var s4 := Next(s3, Step(Enqueue(c, plan.enqueued), at));
    assert s4.calls == s.calls[c := s4.calls[c]];
  }

  /** The state after a request that runs alone, by its outcome. */
  function Outcome(s: State, c: Id, auth: Auth, r: Request, plan: Plan, at: Time): State {
    var check := CheckMode(s.modes, r, at, plan.modeRead);
    var error := if check.Releasing? then check.error else Unavailable;
    var owned := s.(now := at, claims := s.claims[KeyOf(r) := at + ClaimTtl()]);
    if r.tenant != auth.tenant || r.camera != auth.camera
      then s.(now := at, calls := s.calls[c := Call(r, at, Mismatch)])
    else if !plan.claimReached then s.(now := at, calls := s.calls[c := Call(r, at, Failed(Unavailable))])
    else if Live(s.claims, KeyOf(r), at) then s.(now := at, calls := s.calls[c := Call(r, at, Duplicate)])
    else if !check.Releasing? && plan.uploaded && plan.enqueued then
      owned.(stream := s.stream + [Job(c, r, at)], calls := s.calls[c := Call(r, at, Queued)])
    else if plan.released then
      owned.(claims := owned.claims - {KeyOf(r)}, calls := s.calls[c := Call(r, at, Failed(error))])
    else owned.(calls := s.calls[c := Call(r, at, Stranded(error))])
  }

  /** A request that never owns its claim ends at its first step. */
  lemma RefusedStaysPut(s: State, c: Id, plan: Plan, at: Time)
    requires s.now == at && c in s.calls
    requires s.calls[c].phase.Mismatch? || s.calls[c].phase.Duplicate? || s.calls[c].phase.Failed?
    ensures Next(s, Step(Check(c, plan.modeRead), at)) == s && Next(s, Step(Upload(c, plan.uploaded), at)) == s
    ensures Next(s, Step(Enqueue(c, plan.enqueued), at)) == s && Next(s, Step(Release(c, plan.released), at)) == s
  {
  }

  lemma UpdatedTwice(calls: map<Id, Call>, c: Id, call: Call, phase: Phase)
    ensures calls[c := call][c := call.(phase := phase)] == calls[c := call.(phase := phase)]
  {
  }

  lemma OwnerOutcome(s: State, c: Id, auth: Auth, r: Request, plan: Plan, at: Time)
    requires c !in s.calls && s.now <= at
    requires r.tenant == auth.tenant && r.camera == auth.camera
    requires plan.claimReached && !Live(s.claims, KeyOf(r), at)
    ensures
      var s1 := Next(s, Step(Begin(c, auth, r, true), at));
      && s1.now == at && c in s1.calls && s1.calls[c] == Call(r, at, Claimed)
      && Next(Next(Next(Next(s1, Step(Check(c, plan.modeRead), at)), Step(Upload(c, plan.uploaded), at)),
                   Step(Enqueue(c, plan.enqueued), at)), Step(Release(c, plan.released), at))
         == Outcome(s, c, auth, r, plan, at)
  {
    var call := Call(r, at, Claimed);
    var s1 := s.(now := at, claims := s.claims[KeyOf(r) := at + ClaimTtl()], calls := s.calls[c := call]);
    assert Next(s, Step(Begin(c, auth, r, true), at)) == s1;
    OwnerEffect(s1, c, r, plan, at);
    var check := CheckMode(s.modes, r, at, plan.modeRead);
    var error := if check.Releasing? then check.error else Unavailable;
    UpdatedTwice(s.calls, c, call, Queued);
    UpdatedTwice(s.calls, c, call, Failed(error));
    UpdatedTwice(s.calls, c, call, Stranded(error));
  }

  lemma SoloRunEffect(s: State, c: Id, auth: Auth, r: Request, plan: Plan, at: Time)
    requires c !in s.calls && s.now <= at
    ensures After(s, SoloRun(c, auth, r, plan, at)) == Outcome(s, c, auth, r, plan, at)
  {
    FiveSteps(s, SoloRun(c, auth, r, plan, at));
    if r.tenant == auth.tenant && r.camera == auth.camera && plan.claimReached && !Live(s.claims, KeyOf(r), at) {
      OwnerOutcome(s, c, auth, r, plan, at);
    } else {
      RefusedStaysPut(Next(s, Step(Begin(c, auth, r, plan.claimReached), at)), c, plan, at);
    }
  }

  /** The call has failed with the error, its claim released or left behind. */
  predicate FailedWith(phase: Phase, error: Error) {
    phase == Failed(error) || phase == Stranded(error)
  }

  /**
   How a request that runs alone ends: mismatched exactly if its token is of another tenant or camera, a duplicate
   exactly if the id is claimed, queued exactly if its mode is the camera's active one and no call raises; another or no
   active mode fails it with its own error, which goes before those of upload and enqueue.
   */
  lemma SoloRequestEndsIff(s: State, c: Id, auth: Auth, r: Request, plan: Plan, at: Time)
    requires c !in s.calls && s.now <= at
    ensures
      var s' := After(s, SoloRun(c, auth, r, plan, at));
      var key := ClaimKey(r.tenant, r.ingestion);
      var own := auth.tenant == r.tenant && auth.camera == r.camera;
      var owns := own && plan.claimReached && !(key in s.claims && at < s.claims[key]);
      var active := r.camera in s.modes && at < s.modes[r.camera].expiresAt;
      var right := active && s.modes[r.camera].mode == r.mode;
      && c in s'.calls && s'.calls[c].request == r
      && var phase := s'.calls[c].phase;
      && (phase == Mismatch <==> !own)
      && (phase == Duplicate <==> own && plan.claimReached && !owns)
      && (phase == Queued <==> owns && plan.modeRead && right && plan.uploaded && plan.enqueued)
      && (FailedWith(phase, NoActiveMode) <==> owns && plan.modeRead && !active)
      && (FailedWith(phase, WrongMode) <==> owns && plan.modeRead && active && !right)
      && (phase.Stranded? <==> owns && phase != Queued && !plan.released)
      && (key in s'.claims <==> if owns then phase == Queued || phase.Stranded? else key in s.claims)
      && (forall k | k != key :: (k in s'.claims <==> k in s.claims) && (k in s.claims ==> s'.claims[k] == s.claims[k]))
      && s'.stream == if phase == Queued then s.stream + [Job(c, r, at)] else s.stream
  {
    SoloRunEffect(s, c, auth, r, plan, at);
  }
}
