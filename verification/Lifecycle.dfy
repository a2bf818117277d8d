/**
 The rows, keys and messages that the aggregation worker and the triage API change, and what one
 serial step of either does to them. A step is a total function of the world: a step that cannot
 happen (a reused UUID, a clock that does not advance) leaves the world alone, so that statements
 about runs hold for every sequence of steps.
 */
module Lifecycle {
  import opened Domain

  /******* Rows *******/

  datatype DecisionState =
    | Normal
    | Weird
    | Warning
    | ResolvedTruePositive
    | ResolvedFalsePositive
    | ResolvedFalseNegative

  datatype Disposition = TruePositive | FalsePositive | FalseNegative

  datatype Tenant = Tenant(windowSecs: int, weirdThreshold: int, warningThreshold: int)

  datatype Evidence = Evidence(tenant: Id, camera: Id, region: Option<Id>, capturedAt: Time, severity: int)

  datatype Decision = Decision(
    tenant: Id,
    camera: Id,
    region: Option<Id>,
    state: DecisionState,
    cumulativeSeverity: int,
    evidenceCount: int,
    windowStart: Time,
    windowEnd: Time,
    firstEvidenceAt: Option<Time>,
    lastEvidenceAt: Option<Time>,
    resolvedAt: Option<Time>,
    resolvedBy: Option<Id>,
    updatedAt: Time)

  /** A row of decision_evidences; its primary key is the pair itself. */
  datatype Link = Link(decision: Id, evidence: Id)

  datatype Feedback = Feedback(disposition: Disposition, submittedBy: Id)

  datatype Payload =
    | StateChange(fromState: DecisionState, toState: DecisionState, evidenceCount: int, cumulativeSeverity: int)
    | Resolution(disposition: Disposition)

  datatype AuditRecord = AuditRecord(decision: Id, payload: Payload, actor: Option<Id>)

  /** `feedback` is keyed by decision: the column is unique. Links and audit records are in insertion order. */
  datatype Database = Database(
    tenants: map<Id, Tenant>,
    evidences: map<Id, Evidence>,
    decisions: map<Id, Decision>,
    links: seq<Link>,
    feedback: map<Id, Feedback>,
    audit: seq<AuditRecord>)

  /******* Redis keys and outgoing messages *******/

  /** The open-decision key of a (tenant, camera, region); a missing region has a key of its own. */
  datatype OpenKey = OpenKey(tenant: Id, camera: Id, region: Option<Id>)

  datatype Entry = Entry(decision: Id, expiresAt: Time)

  type Index = map<OpenKey, Entry>

  datatype Dispatch =
    | SocketEvent(decision: Id, previous: DecisionState, current: DecisionState, at: Time)
    | DomainEvent(decision: Id, previous: DecisionState, current: DecisionState, at: Time)
    | NotifyWarning(decision: Id, at: Time)
    | ResolvedEvent(decision: Id, current: DecisionState, at: Time)

  /** A resolve request that has passed its checks and has not committed yet. */
  datatype PendingResolve = PendingResolve(decision: Id, disposition: Disposition, actor: Id, checkedAt: Time)

  /**
   `issued` holds every UUID ever given to a decision, committed or not; `commits` holds the instants
   of the aggregate steps that committed.
   */
  datatype World = World(
    db: Database,
    index: Index,
    sent: seq<Dispatch>,
    issued: set<Id>,
    commits: set<Time>,
    pending: map<Id, PendingResolve>,
    now: Time)

  /******* Pure parts *******/

  function KeyOfEvidence(e: Evidence): OpenKey {
    OpenKey(e.tenant, e.camera, e.region)
  }

  function KeyOfDecision(d: Decision): OpenKey {
    OpenKey(d.tenant, d.camera, d.region)
  }

  function StateFor(d: Disposition): DecisionState {
    match d
    case TruePositive => ResolvedTruePositive
    case FalsePositive => ResolvedFalsePositive
    case FalseNegative => ResolvedFalseNegative
  }

  predicate IsResolved(s: DecisionState) {
    s == ResolvedTruePositive || s == ResolvedFalsePositive || s == ResolvedFalseNegative
  }

  function ComputeState(d: Decision, t: Tenant): DecisionState {
    if d.cumulativeSeverity >= t.warningThreshold then Warning
    else if d.evidenceCount >= t.weirdThreshold then Weird
    else Normal
  }

  /** What GET returns for the open-decision key at an instant. */
  function Lookup(index: Index, key: OpenKey, at: Time): Option<Id> {
    if key in index && at < index[key].expiresAt then Some(index[key].decision) else None
  }

  /** What GET would return if keys never expired. */
  function LookupForever(index: Index, key: OpenKey): Option<Id> {
    if key in index then Some(index[key].decision) else None
  }

  /** The decision that a found id merges the evidence into; none means that a new one is created. */
  function Target(db: Database, found: Option<Id>, e: Evidence): Option<Id> {
    if found.Some? && found.value in db.decisions && e.capturedAt <= db.decisions[found.value].windowEnd
    then found
    else None
  }

  /******* What the parts of an aggregate do to the rows *******/

  function NewDecision(e: Evidence, t: Tenant, at: Time): Decision {
    Decision(e.tenant, e.camera, e.region, Normal, 0, 0,
             e.capturedAt, e.capturedAt + Seconds(t.windowSecs),
             Some(e.capturedAt), Some(e.capturedAt), None, None, at)
  }

  function Created(db: Database, id: Id, e: Evidence, t: Tenant, at: Time): Database {
    db.(decisions := db.decisions[id := NewDecision(e, t, at)])
  }

  function Linked(db: Database, did: Id, eid: Id, at: Time): Database
    requires did in db.decisions && eid in db.evidences
  {
    if Link(did, eid) in db.links then db
    else
      var e, d := db.evidences[eid], db.decisions[did];
      var first := if d.firstEvidenceAt.None? then Some(e.capturedAt) else d.firstEvidenceAt;
      db.(links := db.links + [Link(did, eid)],
          decisions := db.decisions[did := d.(
            evidenceCount := d.evidenceCount + 1,
            cumulativeSeverity := d.cumulativeSeverity + e.severity,
            lastEvidenceAt := Some(e.capturedAt),
            firstEvidenceAt := first,
            updatedAt := at)])
  }

  function Transitioned(db: Database, did: Id, t: Tenant, at: Time): Database
    requires did in db.decisions
  {
    var d := db.decisions[did];
    var s := ComputeState(d, t);
    if s == d.state then db
    else
      var record := AuditRecord(did, StateChange(d.state, s, d.evidenceCount, d.cumulativeSeverity), None);
      db.(decisions := db.decisions[did := d.(state := s, updatedAt := at)],
          audit := db.audit + [record])
  }

  /** Linking followed by the state transition: everything a committed aggregate does to an existing decision. */
  function Folded(db: Database, did: Id, eid: Id, t: Tenant, at: Time): Database
    requires did in db.decisions && eid in db.evidences
  {
    Transitioned(Linked(db, did, eid, at), did, t, at)
  }

  /******* Aggregate *******/

  /** The call of an aggregate that raises. One that the step does not reach has no effect. */
  datatype Fault =
    | NoFault
    | LookupFails
    | DeleteFails
    | CreateFails
    | SetKeyFails
    | LinkFails
    | AuditFails
    | SocketEventFails
    | DomainEventFails
    | NotifyFails
    | CommitFails

  datatype Reply =
    | Aggregated(decision: Id)
    | EvidenceNotFound
    | TenantNotFound
    | InvalidExpiry
    | Aborted(fault: Fault)

  datatype AggregateCall = AggregateCall(evidence: Id, newId: Id, fault: Fault)

  /** The messages of a state change, up to the one that raises. */
  function Announcement(did: Id, previous: DecisionState, current: DecisionState, at: Time,
      fault: Fault): seq<Dispatch> {
    if fault == SocketEventFails then []
    else if fault == DomainEventFails then [SocketEvent(did, previous, current, at)]
    else
      var events := [SocketEvent(did, previous, current, at), DomainEvent(did, previous, current, at)];
      if current == Warning && fault != NotifyFails then events + [NotifyWarning(did, at)] else events
  }

  /** Does the announcement of this state run into the fault? */
  predicate AnnouncementFails(current: DecisionState, fault: Fault) {
    fault == SocketEventFails || fault == DomainEventFails || (fault == NotifyFails && current == Warning)
  }

  /** The rest of an aggregate once its decision is known: `base` has the decision, Redis is as `w` says. */
  function Finish(w: World, base: Database, did: Id, call: AggregateCall, t: Tenant, at: Time): (World, Reply)
    requires did in base.decisions && call.evidence in base.evidences
  {
    if call.fault == LinkFails then (w, Aborted(LinkFails))
    else
      var linked := Linked(base, did, call.evidence, at);
      var folded := Folded(base, did, call.evidence, t, at);
      var previous, current := linked.decisions[did].state, folded.decisions[did].state;
      if previous != current && call.fault == AuditFails then (w, Aborted(AuditFails))
      else
        var announced :=
          if previous == current then w
          else w.(sent := w.sent + Announcement(did, previous, current, at, call.fault));
        if (previous != current && AnnouncementFails(current, call.fault)) || call.fault == CommitFails then
          (announced, Aborted(call.fault))
        else
          (announced.(db := folded, commits := w.commits + {at}), Aggregated(did))
  }

  /** Either the aggregate has stopped, or its decision is at hand in `base` and only linking is left. */
  datatype Progress =
    | Stopped(world: World, reply: Reply)
    | Ready(world: World, base: Database, decision: Id)

  /** Finding or creating the decision, given what GET of the open-decision key returned. */
  function Prepare(w: World, found: Option<Id>, call: AggregateCall, at: Time): Progress
    requires call.evidence in w.db.evidences && w.db.evidences[call.evidence].tenant in w.db.tenants
  {
    var e := w.db.evidences[call.evidence];
    var t, key := w.db.tenants[e.tenant], KeyOfEvidence(e);
    var target := Target(w.db, found, e);
    var stale := target.None? && found.Some? && found.value in w.db.decisions;
    if target.Some? then Ready(w, w.db, target.value)
    else if stale && call.fault == DeleteFails then Stopped(w, Aborted(DeleteFails))
    else
      var w1 := w.(index := if stale then w.index - {key} else w.index, issued := w.issued + {call.newId});
      if call.fault == CreateFails then Stopped(w1, Aborted(CreateFails))
      else if t.windowSecs + 300 <= 0 then Stopped(w1, InvalidExpiry)
      else if call.fault == SetKeyFails then Stopped(w1, Aborted(SetKeyFails))
      else
        var entry := Entry(call.newId, at + Seconds(t.windowSecs + 300));
        Ready(w1.(index := w1.index[key := entry]), Created(w.db, call.newId, e, t, at), call.newId)
  }

  /** An aggregate whose GET of the open-decision key returned `found`. */
  function AggregateWith(w: World, found: Option<Id>, call: AggregateCall, at: Time): (World, Reply) {
    if call.evidence !in w.db.evidences then (w, EvidenceNotFound)
    else if w.db.evidences[call.evidence].tenant !in w.db.tenants then (w, TenantNotFound)
    else if call.fault == LookupFails then (w, Aborted(LookupFails))
    else
      match Prepare(w, found, call, at)
      case Stopped(w', reply) => (w', reply)
      case Ready(w', base, did) => Finish(w', base, did, call, w.db.tenants[w.db.evidences[call.evidence].tenant], at)
  }

  /** The key that an aggregate of this evidence looks up. */
  function KeyOfCall(db: Database, call: AggregateCall): Option<OpenKey> {
    if call.evidence in db.evidences then Some(KeyOfEvidence(db.evidences[call.evidence])) else None
  }

  function Found(w: World, call: AggregateCall, at: Time): Option<Id> {
    var key := KeyOfCall(w.db, call);
    if key.Some? then Lookup(w.index, key.value, at) else None
  }

  /******* Resolve *******/

  datatype ResolveRequest = ResolveRequest(tenant: Id, decision: Id, seenAt: Time, disposition: Disposition, actor: Id)

  datatype ResolveFault = NoResolveFault | FlushFails | PublishFails | ResolveCommitFails

  datatype CheckReply = Accepted | NotFound | StaleVersion | AlreadyResolved

  /** The read-and-check half of a resolve. */
  function CheckResolve(db: Database, r: ResolveRequest): CheckReply {
    if r.decision !in db.decisions || db.decisions[r.decision].tenant != r.tenant then NotFound
    else if db.decisions[r.decision].updatedAt != r.seenAt then StaleVersion
    else if IsResolved(db.decisions[r.decision].state) then AlreadyResolved
    else Accepted
  }

  /** The rows after a resolve commits. */
  function ResolvedRows(db: Database, p: PendingResolve, at: Time): Database
    requires p.decision in db.decisions
  {
    db.(decisions := db.decisions[p.decision := db.decisions[p.decision].(
          state := StateFor(p.disposition),
          resolvedAt := Some(p.checkedAt),
          resolvedBy := Some(p.actor),
          updatedAt := at)],
        feedback := db.feedback[p.decision := Feedback(p.disposition, p.actor)],
        audit := db.audit + [AuditRecord(p.decision, Resolution(p.disposition), Some(p.actor))])
  }

  /**
   The writing half of a resolve. The feedback row is unique per decision, so the flush of a second
   one raises and the transaction is rolled back before anything is published.
   */
  function CommitResolve(w: World, req: Id, at: Time, fault: ResolveFault): World
    requires req in w.pending
  {
    var p := w.pending[req];
    var w1 := w.(pending := w.pending - {req});
    if p.decision !in w.db.decisions || p.decision in w.db.feedback then w1
    else if fault == FlushFails || fault == PublishFails then w1
    else
      var w2 := w1.(sent := w.sent + [ResolvedEvent(p.decision, StateFor(p.disposition), at)]);
      if fault == ResolveCommitFails then w2
      else w2.(db := ResolvedRows(w.db, p, at))
  }

  /******* Runs *******/

  datatype Step =
    | AggregateStep(call: AggregateCall)
    | ReadResolveStep(req: Id, request: ResolveRequest)
    | CommitResolveStep(req: Id, fault: ResolveFault)
    | RecordEvidenceStep(evidenceId: Id, evidence: Evidence)
    | LoseKeyStep(key: OpenKey)

  datatype TimedStep = TimedStep(step: Step, at: Time)

  /** Clocks advance, and UUIDs and request ids are not reused. */
  predicate Enabled(w: World, ts: TimedStep) {
    && w.now < ts.at
    && match ts.step
       case AggregateStep(call) => call.newId !in w.issued
       case ReadResolveStep(req, _) => req !in w.pending
       case CommitResolveStep(req, _) => req in w.pending
       case RecordEvidenceStep(id, _) => id !in w.db.evidences
       case LoseKeyStep(_) => true
  }

  function Effect(w: World, ts: TimedStep): World
    requires Enabled(w, ts)
  {
    match ts.step
    case AggregateStep(call) => AggregateWith(w, Found(w, call, ts.at), call, ts.at).0
    case ReadResolveStep(req, r) =>
      if CheckResolve(w.db, r) == Accepted
      then w.(pending := w.pending[req := PendingResolve(r.decision, r.disposition, r.actor, ts.at)])
      else w
    case CommitResolveStep(req, fault) => CommitResolve(w, req, ts.at, fault)
    case RecordEvidenceStep(id, e) => w.(db := w.db.(evidences := w.db.evidences[id := e]))
    case LoseKeyStep(key) => w.(index := w.index - {key})
  }

  function Next(w: World, ts: TimedStep): World {
    if Enabled(w, ts) then Effect(w, ts).(now := ts.at) else w
  }

  function After(w: World, run: seq<TimedStep>): World {
    if |run| == 0 then w else Next(After(w, run[..|run| - 1]), run[|run| - 1])
  }

  /** Configured tenants, and nothing else yet. */
  predicate Initial(w: World) {
    && w.db.evidences == map[] && w.db.decisions == map[] && w.db.links == []
    && w.db.feedback == map[] && w.db.audit == []
    && w.index == map[] && w.sent == [] && w.issued == {} && w.commits == {} && w.pending == map[]
  }
}
