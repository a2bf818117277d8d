/**
 What the call that raises decides: whether an aggregate or a resolve commits, what it has sent by then, and what it
 leaves in Redis, in the order in which the source makes its calls.
 */
module Failures {
  import opened Domain
  import opened Lifecycle
  import opened Bookkeeping
  import opened Escalation

  /**
   A resolve changes the rows exactly if none of its calls raises and the decision has no feedback yet, and it is told
   of exactly if flush and publish do not raise, also if the commit then does.
   */
  lemma ResolveCommitsIff(w: World, req: Id, at: Time, fault: ResolveFault)
    requires req in w.pending
    ensures
      var w', did := CommitResolve(w, req, at, fault), w.pending[req].decision;
      var first := did in w.db.decisions && did !in w.db.feedback;
      && (w'.db != w.db <==> first && fault == NoResolveFault)
      && |w'.sent| == |w.sent| + if first && (fault == NoResolveFault || fault == ResolveCommitFails) then 1 else 0
  {
    var w', did := CommitResolve(w, req, at, fault), w.pending[req].decision;
    if did in w.db.decisions && did !in w.db.feedback && fault == NoResolveFault {
      assert did in w'.db.feedback;
    }
  }

  /** Evidence and tenant are there, and the evidence's own decision, if it has to be created, can have a key. */
  ghost predicate CanAggregate(w: World, found: Option<Id>, call: AggregateCall) {
    && call.evidence in w.db.evidences && w.db.evidences[call.evidence].tenant in w.db.tenants
    && (Joined(w.db, found, w.db.evidences[call.evidence])
        || 0 < w.db.tenants[w.db.evidences[call.evidence].tenant].windowSecs + 300)
  }

  /** The key that was looked up names a decision whose window has not ended. */
  ghost predicate Joined(db: Database, found: Option<Id>, e: Evidence) {
    found.Some? && found.value in db.decisions && e.capturedAt <= db.decisions[found.value].windowEnd
  }

  /** The planned call is one that this aggregate gets to, in the order in which it makes them. */
  ghost predicate Strikes(w: World, found: Option<Id>, call: AggregateCall, at: Time)
    requires call.evidence in w.db.evidences && w.db.evidences[call.evidence].tenant in w.db.tenants
  {
    var joined := Joined(w.db, found, w.db.evidences[call.evidence]);
    var changes := Changes(w.db, found, call, at);
    match call.fault
    case NoFault => false
    case LookupFails => true
    case DeleteFails => !joined && found.Some? && found.value in w.db.decisions
    case CreateFails => !joined
    case SetKeyFails => !joined
    case LinkFails => true
    case AuditFails => changes
    case SocketEventFails => changes
    case DomainEventFails => changes
    case NotifyFails => changes && Outcome(w.db, found, call, at) == Warning
    case CommitFails => true
  }

  /** The state of the decision after the aggregate, if it commits. */
  ghost function Outcome(db: Database, found: Option<Id>, call: AggregateCall, at: Time): DecisionState
    requires call.evidence in db.evidences && db.evidences[call.evidence].tenant in db.tenants
  {
    CommittedShape(db, found, call, at);
    CommittedRows(db, found, call, at).decisions[Chosen(db, found, call)].state
  }

  /** The aggregate, if it commits, changes the state of a decision, a new one being NORMAL. */
  ghost predicate Changes(db: Database, found: Option<Id>, call: AggregateCall, at: Time)
    requires call.evidence in db.evidences && db.evidences[call.evidence].tenant in db.tenants
  {
    var before := if Joined(db, found, db.evidences[call.evidence]) then db.decisions[found.value].state else Normal;
    Outcome(db, found, call, at) != before
  }

  /** The decision is at hand exactly if it has not to be created, or can be and the calls for that do not raise. */
  lemma {:induction false} PrepareIsReadyIff(w: World, found: Option<Id>, call: AggregateCall, at: Time)
    requires call.evidence in w.db.evidences && w.db.evidences[call.evidence].tenant in w.db.tenants
    ensures
      var e := w.db.evidences[call.evidence];
      var joined, stale := Joined(w.db, found, e), found.Some? && found.value in w.db.decisions;
      Prepare(w, found, call, at).Ready?
      <==>
      || joined
      || (&& 0 < w.db.tenants[e.tenant].windowSecs + 300
          && call.fault != CreateFails && call.fault != SetKeyFails && !(stale && call.fault == DeleteFails))
  {
  }

  lemma {:induction false} FinishCommitsIff(w: World, base: Database, did: Id, call: AggregateCall, t: Tenant, at: Time)
    requires did in base.decisions && call.evidence in base.evidences
    ensures
      var current := Folded(base, did, call.evidence, t, at).decisions[did].state;
      var changes, fault := current != base.decisions[did].state, call.fault;
      Finish(w, base, did, call, t, at).1.Aggregated?
      <==>
      && fault != LinkFails && fault != CommitFails && !(changes && fault == AuditFails)
      && !(changes && (fault == SocketEventFails || fault == DomainEventFails))
      && !(changes && fault == NotifyFails && current == Warning)
  {
    LinkedKeepsState(base, did, call.evidence, at);
  }

  /** The state before and after folding, in terms of what commits. */
  lemma {:induction false} FoldedIsCommitted(w: World, found: Option<Id>, call: AggregateCall, at: Time)
    requires call.evidence in w.db.evidences && w.db.evidences[call.evidence].tenant in w.db.tenants
    requires Prepare(w, found, call, at).Ready?
    ensures
      var t, p := w.db.tenants[w.db.evidences[call.evidence].tenant], Prepare(w, found, call, at);
      var current := Folded(p.base, p.decision, call.evidence, t, at).decisions[p.decision].state;
      && current == Outcome(w.db, found, call, at)
      && (current != p.base.decisions[p.decision].state <==> Changes(w.db, found, call, at))
  {
    PrepareShape(w, found, call, at);
  }

  /** An aggregate commits exactly if its rows allow it and none of the calls that it gets to raises. */
  lemma {:induction false} AggregateCommitsIff(w: World, found: Option<Id>, call: AggregateCall, at: Time)
    ensures
      AggregateWith(w, found, call, at).1.Aggregated?
      <==> CanAggregate(w, found, call) && !Strikes(w, found, call, at)
  {
    if call.evidence in w.db.evidences && w.db.evidences[call.evidence].tenant in w.db.tenants {
      var t, p := w.db.tenants[w.db.evidences[call.evidence].tenant], Prepare(w, found, call, at);
      PrepareShape(w, found, call, at);
      PrepareIsReadyIff(w, found, call, at);
      if p.Ready? {
        FoldedIsCommitted(w, found, call, at);
        FinishCommitsIff(p.world, p.base, p.decision, call, t, at);
      }
    }
  }

  /** The messages of an announcement, up to the call that raises. */
  ghost function Sends(current: DecisionState, fault: Fault): nat {
    match fault
    case AuditFails => 0
    case SocketEventFails => 0
    case DomainEventFails => 1
    case NotifyFails => 2
    case _ => if current == Warning then 3 else 2
  }

  lemma {:induction false} FinishSendsSome(w: World, base: Database, did: Id, call: AggregateCall, t: Tenant, at: Time)
    requires did in base.decisions && call.evidence in base.evidences && call.fault != LinkFails
    ensures
      var sent := |Finish(w, base, did, call, t, at).0.sent| - |w.sent|;
      var current := Folded(base, did, call.evidence, t, at).decisions[did].state;
      sent == if current == base.decisions[did].state then 0 else Sends(current, call.fault)
  {
    LinkedKeepsState(base, did, call.evidence, at);
  }

  /** How many messages an aggregate has sent when it ends: those before the call that raises. */
  lemma {:induction false} AggregateSends(w: World, found: Option<Id>, call: AggregateCall, at: Time)
    requires CanAggregate(w, found, call)
    ensures
      var sent := |AggregateWith(w, found, call, at).0.sent| - |w.sent|;
      sent == if (call.fault in {LookupFails, DeleteFails, CreateFails, SetKeyFails, LinkFails}
                  && Strikes(w, found, call, at)) || !Changes(w.db, found, call, at) then 0
              else Sends(Outcome(w.db, found, call, at), call.fault)
  {
    var t, p := w.db.tenants[w.db.evidences[call.evidence].tenant], Prepare(w, found, call, at);
    PrepareShape(w, found, call, at);
    if call.fault != LookupFails && call.fault != LinkFails && p.Ready? {
      FoldedIsCommitted(w, found, call, at);
      FinishSendsSome(p.world, p.base, p.decision, call, t, at);
    }
  }

  /** What finding or creating the decision leaves of the key that was looked up. */
  lemma {:induction false} PrepareLeavesKey(w: World, found: Option<Id>, call: AggregateCall, at: Time)
    requires call.evidence in w.db.evidences && w.db.evidences[call.evidence].tenant in w.db.tenants
    ensures
      var index, e := Prepare(w, found, call, at).world.index, w.db.evidences[call.evidence];
      var key, secs := OpenKey(e.tenant, e.camera, e.region), w.db.tenants[e.tenant].windowSecs + 300;
      var closed := found.Some? && found.value in w.db.decisions;
      if Joined(w.db, found, e) || (closed && call.fault == DeleteFails) then index == w.index
      else if call.fault == CreateFails || call.fault == SetKeyFails || secs <= 0 then
        index == if closed then w.index - {key} else w.index
      else index == w.index[key := Entry(call.newId, at + Seconds(secs))]
  {
    var e := w.db.evidences[call.evidence];
    var key, entry := KeyOfEvidence(e), Entry(call.newId, at + Seconds(w.db.tenants[e.tenant].windowSecs + 300));
    assert (w.index - {key})[key := entry] == w.index[key := entry];
  }

  /** What an aggregate of found evidence does to the key that it looked up. */
  lemma {:induction false} AggregateLeavesKey(w: World, found: Option<Id>, call: AggregateCall, at: Time)
    requires call.evidence in w.db.evidences && w.db.evidences[call.evidence].tenant in w.db.tenants
    ensures
      var index, e := AggregateWith(w, found, call, at).0.index, w.db.evidences[call.evidence];
      var key, secs := OpenKey(e.tenant, e.camera, e.region), w.db.tenants[e.tenant].windowSecs + 300;
      var closed := found.Some? && found.value in w.db.decisions;
      if call.fault == LookupFails || Joined(w.db, found, e) || (closed && call.fault == DeleteFails) then
        index == w.index
      else if call.fault == CreateFails || call.fault == SetKeyFails || secs <= 0 then
        index == if closed then w.index - {key} else w.index
      else index == w.index[key := Entry(call.newId, at + Seconds(secs))]
  {
    var p, t := Prepare(w, found, call, at), w.db.tenants[w.db.evidences[call.evidence].tenant];
    PrepareLeavesKey(w, found, call, at);
    if call.fault != LookupFails && p.Ready? {
      FinishLeavesRedis(p.world, p.base, p.decision, call, t, at);
    }
  }
}
