/**
 The append-only audit trail explains the decisions: replaying a decision's records from NORMAL gives
 its state, in every reachable world, also after a resolved decision receives more evidence.
 */
module Trail {
  import opened Domain
  import opened Lifecycle
  import opened Bookkeeping

  function ReplayRecord(payload: Payload): DecisionState {
    match payload
    case StateChange(_, toState, _, _) => toState
    case Resolution(disposition) => StateFor(disposition)
  }

  /** The state that the trail gives a decision: its records folded from NORMAL. */
  function Replay(audit: seq<AuditRecord>, did: Id): DecisionState {
    if |audit| == 0 then Normal
    else if audit[|audit| - 1].decision == did then ReplayRecord(audit[|audit| - 1].payload)
    else Replay(audit[..|audit| - 1], did)
  }

  /** Counters of a state change, put back into the decision, compute its target state. */
  ghost predicate JustifiedByCounters(db: Database, did: Id, payload: Payload)
    requires payload.StateChange? && did in db.decisions && db.decisions[did].tenant in db.tenants
  {
    var then_ := db.decisions[did].(
      evidenceCount := payload.evidenceCount, cumulativeSeverity := payload.cumulativeSeverity);
    ComputeState(then_, db.tenants[then_.tenant]) == payload.toState
  }

  /** The i-th record belongs to a decision and, if it is a state change, starts where the trail before it ends. */
  ghost predicate RecordSound(db: Database, i: nat)
    requires i < |db.audit|
  {
    var r := db.audit[i];
    && r.decision in db.decisions && db.decisions[r.decision].tenant in db.tenants
    && (r.payload.StateChange? ==>
          && r.payload.fromState == Replay(db.audit[..i], r.decision)
          && r.payload.fromState != r.payload.toState
          && JustifiedByCounters(db, r.decision, r.payload))
  }

  ghost predicate Explained(db: Database) {
    && (forall did | did in db.decisions :: Replay(db.audit, did) == db.decisions[did].state)
    && (forall i | 0 <= i < |db.audit| :: RecordSound(db, i))
  }

  lemma {:induction false} ReplayOfAbsent(audit: seq<AuditRecord>, did: Id)
    requires forall i | 0 <= i < |audit| :: audit[i].decision != did
    ensures Replay(audit, did) == Normal
  {
    if |audit| > 0 {
      ReplayOfAbsent(audit[..|audit| - 1], did);
    }
  }

  /** Old records stay sound when decisions keep their identity and the trail only grows. */
  lemma RecordsStaySound(db: Database, db': Database, i: nat)
    requires i < |db.audit| <= |db'.audit| && db'.audit[..|db.audit|] == db.audit
    requires RecordSound(db, i) && db.tenants == db'.tenants
    requires forall did | did in db.decisions ::
      did in db'.decisions && db'.decisions[did].tenant == db.decisions[did].tenant
    ensures RecordSound(db', i)
  {
    assert db'.audit[i] == db.audit[i];
    assert db'.audit[..i] == db.audit[..i];
  }

  lemma CreatedKeepsTrail(db: Database, id: Id, e: Evidence, t: Tenant, at: Time)
    requires Explained(db) && id !in db.decisions
    ensures Explained(Created(db, id, e, t, at))
  {
    var db' := Created(db, id, e, t, at);
    forall i | 0 <= i < |db.audit| ensures db.audit[i].decision != id && RecordSound(db', i) {
      assert RecordSound(db, i);
      RecordsStaySound(db, db', i);
    }
    ReplayOfAbsent(db.audit, id);
  }

  lemma LinkedKeepsTrail(db: Database, did: Id, eid: Id, at: Time)
    requires Explained(db) && did in db.decisions && eid in db.evidences
    ensures Explained(Linked(db, did, eid, at))
  {
    var db' := Linked(db, did, eid, at);
    forall i | 0 <= i < |db.audit| ensures RecordSound(db', i) {
      assert RecordSound(db, i);
      RecordsStaySound(db, db', i);
    }
  }

  lemma AppendedKeepsTrail(db: Database, db': Database, r: AuditRecord)
    requires Explained(db) && r.decision in db.decisions && db.decisions[r.decision].tenant in db.tenants
    requires db'.tenants == db.tenants && db'.audit == db.audit + [r]
    requires db'.decisions.Keys == db.decisions.Keys
    requires forall did | did in db.decisions ::
      && db'.decisions[did].tenant == db.decisions[did].tenant
      && (did != r.decision ==> db'.decisions[did].state == db.decisions[did].state)
    requires db'.decisions[r.decision].state == ReplayRecord(r.payload)
    requires r.payload.StateChange? ==>
      && r.payload.fromState == db.decisions[r.decision].state
      && r.payload.fromState != r.payload.toState
      && JustifiedByCounters(db', r.decision, r.payload)
    ensures Explained(db')
  {
    var n := |db.audit|;
    assert db'.audit[..n] == db.audit;
    forall i | 0 <= i < |db'.audit| ensures RecordSound(db', i) {
      if i < n {
        assert RecordSound(db, i);
        RecordsStaySound(db, db', i);
      }
    }
  }

  lemma CommittedKeepsTrail(db: Database, found: Option<Id>, call: AggregateCall, at: Time)
    requires Explained(db) && WindowsSound(db) && call.newId !in db.decisions
    requires call.evidence in db.evidences && db.evidences[call.evidence].tenant in db.tenants
    requires
      var target := Target(db, found, db.evidences[call.evidence]);
      target.Some? ==> db.decisions[target.value].tenant == db.evidences[call.evidence].tenant
    ensures Explained(CommittedRows(db, found, call, at))
  {
    var e := db.evidences[call.evidence];
    var t := db.tenants[e.tenant];
    var target := Target(db, found, e);
    if target.None? {
      CreatedKeepsTrail(db, call.newId, e, t, at);
    }
    var base := if target.Some? then db else Created(db, call.newId, e, t, at);
    var did := Chosen(db, found, call);
    LinkedKeepsTrail(base, did, call.evidence, at);
    var linked := Linked(base, did, call.evidence, at);
    var folded := Transitioned(linked, did, t, at);
    if folded != linked {
      AppendedKeepsTrail(linked, folded, folded.audit[|linked.audit|]);
    }
  }

  lemma ResolvedKeepsTrail(db: Database, p: PendingResolve, at: Time)
    requires Explained(db) && WindowsSound(db) && p.decision in db.decisions
    ensures Explained(ResolvedRows(db, p, at))
  {
    var db' := ResolvedRows(db, p, at);
    AppendedKeepsTrail(db, db', db'.audit[|db.audit|]);
  }

  lemma RecordKeepsTrail(db: Database, eid: Id, e: Evidence)
    requires Explained(db)
    ensures Explained(db.(evidences := db.evidences[eid := e]))
  {
    var db' := db.(evidences := db.evidences[eid := e]);
    forall i | 0 <= i < |db'.audit| ensures RecordSound(db', i) {
      assert RecordSound(db, i);
      RecordsStaySound(db, db', i);
    }
  }

  lemma NextKeepsTrail(w: World, ts: TimedStep)
    requires Explained(w.db) && RowsSound(w.db) && IndexSound(w)
    ensures Explained(Next(w, ts).db)
  {
    if Enabled(w, ts) {
      match ts.step
      case AggregateStep(call) =>
        AggregateIsTransactional(w, Found(w, call, ts.at), call, ts.at);
        if call.evidence in w.db.evidences && w.db.evidences[call.evidence].tenant in w.db.tenants {
          FoundHasKey(w, call, ts.at);
          CommittedKeepsTrail(w.db, Found(w, call, ts.at), call, ts.at);
        }
      case CommitResolveStep(req, fault) =>
        if w.pending[req].decision in w.db.decisions {
          ResolvedKeepsTrail(w.db, w.pending[req], ts.at);
        }
      case RecordEvidenceStep(id, e) =>
        RecordKeepsTrail(w.db, id, e);
      case _ =>
    }
  }

  /**
   In every reachable world the trail replays to the state of every decision, every state change
   starts from the state replayed just before it and changes it, and its counters justify its target.
   */
  lemma {:induction false} AuditReplayReconstructsState(w: World, run: seq<TimedStep>)
    requires Initial(w)
    ensures Explained(After(w, run).db)
  {
    if |run| > 0 {
      var front := run[..|run| - 1];
      AuditReplayReconstructsState(w, front);
      BooksAlwaysBalance(w, front);
      NextKeepsTrail(After(w, front), run[|run| - 1]);
    }
  }
}
