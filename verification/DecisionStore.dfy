/**
 The aggregation service and the resolve route as they run: methods that change the rows of an open
 transaction, the Redis keys and the outgoing messages in place, and roll the rows back when a call raises.
 Each is proved to have exactly the effect of the step it is in a run.
 */
module DecisionStore {
  import opened Domain
  import opened Lifecycle

  /** The outcome of a call that may raise; a failure carries the reply of the whole request. */
  datatype Outcome = Pass | Raise(reply: Reply) {
    predicate IsFailure() {
      Raise?
    }

    function PropagateFailure(): Reply
      requires Raise?
    {
      reply
    }
  }

  /** Raises if the fault is planned for this call. */
  function Reach(fault: Fault, here: Fault): Outcome {
    if fault == here then Raise(Aborted(fault)) else Pass
  }

  /** The row is in the state that its counters reach under the tenant's thresholds. */
  predicate AtThresholds(d: Decision, t: Tenant) {
    && (d.state == Warning <==> d.cumulativeSeverity >= t.warningThreshold)
    && (d.state == Weird <==> d.cumulativeSeverity < t.warningThreshold && d.evidenceCount >= t.weirdThreshold)
    && (d.state == Normal <==> d.cumulativeSeverity < t.warningThreshold && d.evidenceCount < t.weirdThreshold)
  }

  /**
   `db` holds the committed rows and `session` the rows as the open transaction sees them. `issued` and
   `commits` record the UUIDs given out and the instants of committed aggregates.
   */
  class Store {
    var db: Database
    var session: Database
    var index: Index
    var sent: seq<Dispatch>
    var pending: map<Id, PendingResolve>
    var now: Time
    ghost var issued: set<Id>
    ghost var commits: set<Time>

    ghost function State(): World
      reads this
    {
      World(db, index, sent, issued, commits, pending, now)
    }

    constructor (tenants: map<Id, Tenant>, start: Time)
      ensures Initial(State()) && session == db && db.tenants == tenants && now == start
    {
      db := Database(tenants, map[], map[], [], map[], []);
      session := Database(tenants, map[], map[], [], map[], []);
      index, sent, pending, now := map[], [], map[], start;
      issued, commits := {}, {};
    }

    /******* Redis *******/

    method GetKey(key: OpenKey, at: Time) returns (found: Option<Id>)
      ensures found == Lookup(index, key, at)
    {
      if key in index {
        var entry := index[key];
        if at < entry.expiresAt {
          return Some(entry.decision);
        }
      }
      return None;
    }

    method DeleteKey(key: OpenKey)
      modifies this`index
      ensures index == old(index) - {key}
    {
      index := index - {key};
    }

    /** SET with an expiry; Redis rejects one that is not positive. */
    method SetKey(key: OpenKey, did: Id, secs: int, at: Time) returns (outcome: Outcome)
      modifies this`index
      ensures outcome == if secs <= 0 then Raise(InvalidExpiry) else Pass
      ensures index == if secs <= 0 then old(index) else old(index)[key := Entry(did, at + Seconds(secs))]
    {
      if secs <= 0 {
        return Raise(InvalidExpiry);
      }
      index := index[key := Entry(did, at + Seconds(secs))];
      return Pass;
    }

    /******* Parts of an aggregate *******/

    method CreateDecision(e: Evidence, t: Tenant, id: Id, at: Time)
      modifies this`session, this`issued
      ensures session == Created(old(session), id, e, t, at) && issued == old(issued) + {id}
    {
      var windowStart := e.capturedAt;
      var windowEnd := windowStart + Seconds(t.windowSecs);
      var decision := Decision(
        tenant := e.tenant, camera := e.camera, region := e.region, state := Normal,
        cumulativeSeverity := 0, evidenceCount := 0,
        windowStart := windowStart, windowEnd := windowEnd,
        firstEvidenceAt := Some(e.capturedAt), lastEvidenceAt := Some(e.capturedAt),
        resolvedAt := None, resolvedBy := None, updatedAt := at);
      session := session.(decisions := session.decisions[id := decision]);
      issued := issued + {id};
    }

    method LinkEvidence(did: Id, eid: Id, at: Time)
      requires did in session.decisions && eid in session.evidences
      modifies this`session
      ensures session == Linked(old(session), did, eid, at)
    {
      if Link(did, eid) in session.links {
        return;
      }
      var e, d := session.evidences[eid], session.decisions[did];
      session := session.(links := session.links + [Link(did, eid)]);
      d := d.(evidenceCount := d.evidenceCount + 1);
      d := d.(cumulativeSeverity := d.cumulativeSeverity + e.severity);
      d := d.(lastEvidenceAt := Some(e.capturedAt));
      if d.firstEvidenceAt.None? {
        d := d.(firstEvidenceAt := Some(e.capturedAt));
      }
      session := session.(decisions := session.decisions[did := d.(updatedAt := at)]);
    }

    /** The announcement of a state change, and the outcome of the calls that make it. */
    method EmitStateChange(did: Id, previous: DecisionState, current: DecisionState, at: Time, fault: Fault)
      returns (outcome: Outcome)
      modifies this`sent
      ensures sent == old(sent) + Announcement(did, previous, current, at, fault)
      ensures outcome == if AnnouncementFails(current, fault) then Raise(Aborted(fault)) else Pass
    {
      if fault == SocketEventFails {
        return Raise(Aborted(fault));
      }
      sent := sent + [SocketEvent(did, previous, current, at)];
      if fault == DomainEventFails {
        return Raise(Aborted(fault));
      }
      sent := sent + [DomainEvent(did, previous, current, at)];
      if current == Warning {
        if fault == NotifyFails {
          return Raise(Aborted(fault));
        }
        sent := sent + [NotifyWarning(did, at)];
      }
      return Pass;
    }

    method ApplyStateTransitions(did: Id, t: Tenant, at: Time, fault: Fault) returns (outcome: Outcome)
      requires did in session.decisions
      modifies this`session, this`sent
      ensures
        var previous := old(session.decisions[did].state);
        var after := Transitioned(old(session), did, t, at);
        var current := after.decisions[did].state;
        if previous == current then session == old(session) && sent == old(sent) && outcome == Pass
        else if fault == AuditFails then sent == old(sent) && outcome == Raise(Aborted(fault))
        else
          && session == after
          && sent == old(sent) + Announcement(did, previous, current, at, fault)
          && outcome == if AnnouncementFails(current, fault) then Raise(Aborted(fault)) else Pass
      ensures did in session.decisions
      ensures outcome.Pass? ==> AtThresholds(session.decisions[did], t)
    {
      var d := session.decisions[did];
      var current := ComputeState(d, t);
      if current == d.state {
        return Pass;
      }
      var previous := d.state;
      session := session.(decisions := session.decisions[did := d.(state := current, updatedAt := at)]);
      if fault == AuditFails {
        return Raise(Aborted(fault));
      }
      var payload := StateChange(previous, current, d.evidenceCount, d.cumulativeSeverity);
      session := session.(audit := session.audit + [AuditRecord(did, payload, None)]);
      outcome := EmitStateChange(did, previous, current, at, fault);
    }

    /** Creates the decision of evidence that none takes, and points the open key at it. */
    method OpenDecision(call: AggregateCall, e: Evidence, t: Tenant, at: Time, stale: bool) returns (outcome: Outcome)
      requires session == db && call.evidence in db.evidences && db.evidences[call.evidence] == e
      requires e.tenant in db.tenants && db.tenants[e.tenant] == t
      modifies this`session, this`index, this`issued
      ensures
        var key := KeyOfEvidence(e);
        var cleared := if stale then old(index) - {key} else old(index);
        if stale && call.fault == DeleteFails then
          outcome == Raise(Aborted(DeleteFails)) && index == old(index) && issued == old(issued)
        else
          && issued == old(issued) + {call.newId}
          && if call.fault == CreateFails then outcome == Raise(Aborted(CreateFails)) && index == cleared
             else if t.windowSecs + 300 <= 0 then outcome == Raise(InvalidExpiry) && index == cleared
             else if call.fault == SetKeyFails then outcome == Raise(Aborted(SetKeyFails)) && index == cleared
             else
               && outcome == Pass && session == Created(db, call.newId, e, t, at)
               && index == cleared[key := Entry(call.newId, at + Seconds(t.windowSecs + 300))]
    {
      var key := OpenKey(e.tenant, e.camera, e.region);
      if stale {
        outcome := Reach(call.fault, DeleteFails);
        if outcome.Raise? {
          return;
        }
        DeleteKey(key);
      }
      CreateDecision(e, t, call.newId, at);
      outcome := Reach(call.fault, CreateFails);
      if outcome.Raise? {
        return;
      }
      if 0 < t.windowSecs + 300 {
        outcome := Reach(call.fault, SetKeyFails);
        if outcome.Raise? {
          return;
        }
      }
      outcome := SetKey(key, call.newId, t.windowSecs + 300, at);
    }

    /** Finds the decision that takes the evidence, or creates one and points the open key at it, and links it. */
    method MergeOrCreateDecision(call: AggregateCall, e: Evidence, t: Tenant, at: Time)
      returns (outcome: Outcome, did: Id)
      requires session == db && call.evidence in db.evidences && db.evidences[call.evidence] == e
      requires e.tenant in db.tenants && db.tenants[e.tenant] == t
      modifies this`session, this`index, this`issued
      ensures
        var progress := Prepare(old(State()), Lookup(old(index), KeyOfEvidence(e), at), call, at);
        && State() == progress.world
        && match progress
           case Stopped(_, reply) => outcome == Raise(reply)
           case Ready(_, base, id) =>
             if call.fault == LinkFails then outcome == Raise(Aborted(LinkFails))
             else outcome == Pass && did == id && session == Linked(base, id, call.evidence, at)
    {
      var found := GetKey(OpenKey(e.tenant, e.camera, e.region), at);
      var decision: Option<Decision> := None;
      if found.Some? && found.value in session.decisions {
        decision := Some(session.decisions[found.value]);
      }
      if decision.Some? && e.capturedAt <= decision.value.windowEnd {
        did := found.value;
      } else {
        did := call.newId;
        outcome := OpenDecision(call, e, t, at, decision.Some?);
        if outcome.Raise? {
          return;
        }
      }
      outcome := Reach(call.fault, LinkFails);
      if outcome.Pass? {
        LinkEvidence(did, call.evidence, at);
      }
    }

    /** One transaction; the rows are rolled back when a call raises, the keys and messages are not. */
    method Aggregate(call: AggregateCall, at: Time) returns (reply: Reply)
      requires session == db
      modifies this
      ensures session == db
      ensures
        var (w, r) := AggregateWith(old(State()), Found(old(State()), call, at), call, at);
        State() == w && reply == r
    {
      reply := AggregateInTransaction(call, at);
      if reply.Aggregated? {
        db := session;
        commits := commits + {at};
      } else {
        session := db;
      }
    }

    /** The rest of the transaction once the evidence is linked; `base` holds the rows before that. */
    method FinishTransaction(ghost base: Database, did: Id, call: AggregateCall, t: Tenant,
        at: Time) returns (reply: Reply)
      requires did in base.decisions && call.evidence in base.evidences && call.fault != LinkFails
      requires session == Linked(base, did, call.evidence, at)
      modifies this`session, this`sent
      ensures
        var (w, r) := Finish(old(State()), base, did, call, t, at);
        && reply == r
        && State() == w.(db := db, commits := commits)
        && (if r.Aggregated? then w.db == session && w.commits == commits + {at}
            else w.db == db && w.commits == commits)
    {
      var outcome := ApplyStateTransitions(did, t, at, call.fault);
      :- outcome;
      :- Reach(call.fault, CommitFails);
      return Aggregated(did);
    }

    /** The body of the transaction, up to its commit. */
    method AggregateInTransaction(call: AggregateCall, at: Time) returns (reply: Reply)
      requires session == db
      modifies this
      ensures db == old(db) && commits == old(commits)
      ensures
        var (w, r) := AggregateWith(old(State()), Found(old(State()), call, at), call, at);
        && reply == r
        && State() == w.(db := db, commits := commits)
        && (if r.Aggregated? then w.db == session && w.commits == commits + {at}
            else w.db == db && w.commits == commits)
    {
      if call.evidence !in session.evidences {
        return EvidenceNotFound;
      }
      var e := session.evidences[call.evidence];
      if e.tenant !in session.tenants {
        return TenantNotFound;
      }
      var t := session.tenants[e.tenant];
      :- Reach(call.fault, LookupFails);
      var outcome, did := MergeOrCreateDecision(call, e, t, at);
      :- outcome;
      ghost var base := Prepare(old(State()), Lookup(old(index), KeyOfEvidence(e), at), call, at).base;
      reply := FinishTransaction(base, did, call, t, at);
    }

    /******* Resolve *******/

    /** Reads and checks the decision; an accepted request stays pending until it commits. */
    method ReadResolve(req: Id, r: ResolveRequest, at: Time) returns (reply: CheckReply)
      requires session == db && req !in pending
      modifies this`pending
      ensures reply == CheckResolve(db, r)
      ensures pending == if reply == Accepted
                         then old(pending)[req := PendingResolve(r.decision, r.disposition, r.actor, at)]
                         else old(pending)
    {
      if r.decision !in session.decisions {
        return NotFound;
      }
      var d := session.decisions[r.decision];
      if d.tenant != r.tenant {
        return NotFound;
      }
      if d.updatedAt != r.seenAt {
        return StaleVersion;
      }
      if d.state in {ResolvedTruePositive, ResolvedFalsePositive, ResolvedFalseNegative} {
        return AlreadyResolved;
      }
      pending := pending[req := PendingResolve(r.decision, r.disposition, r.actor, at)];
      return Accepted;
    }

    /** Writes the decision, its feedback and its audit record in one transaction. */
    method CommitPending(req: Id, at: Time, fault: ResolveFault) returns (committed: bool)
      requires session == db && req in pending
      modifies this
      ensures session == db
      ensures State() == CommitResolve(old(State()), req, at, fault)
      ensures committed <==> fault == NoResolveFault
                             && old(pending[req]).decision in old(db).decisions
                             && old(pending[req]).decision !in old(db).feedback
      ensures
        var p := old(pending[req]);
        committed ==>
          && p.decision in db.decisions && p.decision in db.feedback
          && db.feedback[p.decision].disposition == p.disposition
          && db.decisions[p.decision].state
             == match p.disposition
                case TruePositive => ResolvedTruePositive
                case FalsePositive => ResolvedFalsePositive
                case FalseNegative => ResolvedFalseNegative
    {
      var p := pending[req];
      pending := pending - {req};
      if p.decision !in session.decisions {
        return false;
      }
      var d := session.decisions[p.decision];
      d := d.(state := StateFor(p.disposition));
      d := d.(resolvedAt := Some(p.checkedAt));
      d := d.(resolvedBy := Some(p.actor), updatedAt := at);
      session := session.(decisions := session.decisions[p.decision := d]);
      if p.decision in session.feedback || fault == FlushFails {
        session := db;
        return false;
      }
      session := session.(feedback := session.feedback[p.decision := Feedback(p.disposition, p.actor)]);
      session := session.(audit := session.audit + [AuditRecord(p.decision, Resolution(p.disposition), Some(p.actor))]);
      if fault == PublishFails {
        session := db;
        return false;
      }
      sent := sent + [ResolvedEvent(p.decision, StateFor(p.disposition), at)];
      if fault == ResolveCommitFails {
        session := db;
        return false;
      }
      db := session;
      return true;
    }
  }
}
