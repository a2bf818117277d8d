/**
 Escalation is bounded. With non-negative severities, a decision that was never resolved is in the state
 its counters compute and only moves up; over its whole life a decision changes state at most twice
 more than it is resolved, and causes at most one committed warning notification more than that.
 */
module Escalation {
  import opened Domain
  import opened Lifecycle
  import opened Bookkeeping
  import opened Resolution

  function Level(s: DecisionState): nat {
    match s
    case Normal => 0
    case Weird => 1
    case _ => 2
  }

  function StateChanges(audit: seq<AuditRecord>, did: Id): nat {
    if |audit| == 0 then 0
    else
      var r := audit[|audit| - 1];
      StateChanges(audit[..|audit| - 1], did) + if r.decision == did && r.payload.StateChange? then 1 else 0
  }

  function WarningChanges(audit: seq<AuditRecord>, did: Id): nat {
    if |audit| == 0 then 0
    else
      var r := audit[|audit| - 1];
      WarningChanges(audit[..|audit| - 1], did)
      + if r.decision == did && r.payload.StateChange? && r.payload.toState == Warning then 1 else 0
  }

  /** notify_warning dispatches for a decision that come from aggregates that committed. */
  function CommittedNotices(sent: seq<Dispatch>, commits: set<Time>, did: Id): nat {
    if |sent| == 0 then 0
    else
      var m := sent[|sent| - 1];
      CommittedNotices(sent[..|sent| - 1], commits, did)
      + if m.NotifyWarning? && m.decision == did && m.at in commits then 1 else 0
  }

  /** The state that the counters of a decision compute under its tenant's thresholds. */
  function Computed(db: Database, did: Id): DecisionState
    requires did in db.decisions && db.decisions[did].tenant in db.tenants
  {
    ComputeState(db.decisions[did], db.tenants[db.decisions[did].tenant])
  }

  /**
   The bound in the form that every step keeps. A resolve buys one more state change and one more
   warning, and until the next aggregate uses it that credit is still there.
   */
  ghost predicate EscalationBound(db: Database, did: Id)
    requires did in db.decisions && db.decisions[did].tenant in db.tenants
  {
    var resolves := if did in db.feedback then 1 else 0;
    var credit := if IsResolved(db.decisions[did].state) then 1 else 0;
    var warned := if Computed(db, did) == Warning then 1 else 0;
    && (IsResolved(db.decisions[did].state) || db.decisions[did].state == Computed(db, did))
    && StateChanges(db.audit, did) + credit <= Level(Computed(db, did)) + resolves
    && WarningChanges(db.audit, did) + credit <= warned + resolves
  }

  ghost predicate EscalationSound(db: Database) {
    && WindowsSound(db)
    && (forall i | 0 <= i < |db.audit| :: db.audit[i].decision in db.decisions)
    && (forall did | did in db.decisions :: EscalationBound(db, did))
  }

  ghost predicate NonNegativeSeverities(db: Database) {
    forall e | e in db.evidences :: 0 <= db.evidences[e].severity
  }

  /** The steps of the run record no evidence of negative severity. */
  ghost predicate RecordsNonNegative(run: seq<TimedStep>) {
    forall ts | ts in run && ts.step.RecordEvidenceStep? :: 0 <= ts.step.evidence.severity
  }

  /******* One committed aggregate *******/

  lemma {:induction false} NothingCountedOfAbsent(audit: seq<AuditRecord>, did: Id)
    requires forall i | 0 <= i < |audit| :: audit[i].decision != did
    ensures StateChanges(audit, did) == 0 && WarningChanges(audit, did) == 0
  {
    if |audit| > 0 {
      NothingCountedOfAbsent(audit[..|audit| - 1], did);
    }
  }

  lemma CountAppended(audit: seq<AuditRecord>, r: AuditRecord, did: Id)
    ensures StateChanges(audit + [r], did)
            == StateChanges(audit, did) + if r.decision == did && r.payload.StateChange? then 1 else 0
    ensures WarningChanges(audit + [r], did)
            == WarningChanges(audit, did)
               + if r.decision == did && r.payload.StateChange? && r.payload.toState == Warning then 1 else 0
  {
    assert (audit + [r])[..|audit|] == audit;
  }

  /** Counters never fall, so the computed state never falls. */
  lemma LinkingRaisesComputed(db: Database, did: Id, eid: Id, t: Tenant, at: Time)
    requires did in db.decisions && eid in db.evidences && 0 <= db.evidences[eid].severity
    ensures
      var d, d' := db.decisions[did], Linked(db, did, eid, at).decisions[did];
      && d'.state == d.state && d'.tenant == d.tenant
      && Level(ComputeState(d, t)) <= Level(ComputeState(d', t))
  {
  }

  /** The record of a change of state, with the counters after it. */
  function ChangeRecord(did: Id, d: Decision, d': Decision): AuditRecord {
    AuditRecord(did, StateChange(d.state, d'.state, d'.evidenceCount, d'.cumulativeSeverity), None)
  }

  /** The trail after folding: one record if the state changes, and the new state is the computed one. */
  lemma FoldedTrail(db: Database, did: Id, eid: Id, t: Tenant, at: Time)
    requires did in db.decisions && eid in db.evidences
    ensures
      var db' := Folded(db, did, eid, t, at);
      var d, d' := db.decisions[did], db'.decisions[did];
      && d'.tenant == d.tenant && db'.tenants == db.tenants && db'.feedback == db.feedback
      && d'.state == ComputeState(d', t)
      && ComputeState(d', t) == ComputeState(Linked(db, did, eid, at).decisions[did], t)
      && db'.audit
         == if d'.state == d.state then db.audit
            else db.audit + [ChangeRecord(did, d, d')]
  {
  }

  /** The bound of a decision after its computed state has risen and its state has followed. */
  lemma BoundFollowsComputed(db: Database, db': Database, did: Id, r: AuditRecord)
    requires did in db.decisions && db.decisions[did].tenant in db.tenants && EscalationBound(db, did)
    requires did in db'.decisions && db'.decisions[did].tenant in db'.tenants && db'.feedback == db.feedback
    requires Level(Computed(db, did)) <= Level(Computed(db', did)) && db'.decisions[did].state == Computed(db', did)
    requires r.decision == did && r.payload.StateChange? && r.payload.toState == db'.decisions[did].state
    requires db'.audit == if db'.decisions[did].state == db.decisions[did].state then db.audit else db.audit + [r]
    ensures EscalationBound(db', did)
  {
    CountAppended(db.audit, r, did);
  }

  lemma FoldedKeepsBound(db: Database, did: Id, eid: Id, t: Tenant, at: Time)
    requires did in db.decisions && eid in db.evidences && 0 <= db.evidences[eid].severity
    requires db.decisions[did].tenant in db.tenants && db.tenants[db.decisions[did].tenant] == t
    requires db.decisions[did].tenant in db.tenants && EscalationBound(db, did)
    ensures EscalationBound(Folded(db, did, eid, t, at), did)
  {
    var db' := Folded(db, did, eid, t, at);
    var d, d' := db.decisions[did], db'.decisions[did];
    LinkingRaisesComputed(db, did, eid, t, at);
    FoldedTrail(db, did, eid, t, at);
    BoundFollowsComputed(db, db', did,
      ChangeRecord(did, d, d'));
  }

  /** The first evidence of a new decision meets the bound. */
  lemma FirstFoldMeetsBound(db: Database, did: Id, eid: Id, t: Tenant, at: Time)
    requires did in db.decisions && eid in db.evidences
    requires db.decisions[did].tenant in db.tenants && db.tenants[db.decisions[did].tenant] == t
    requires did !in db.feedback && db.decisions[did].state == Normal
    requires StateChanges(db.audit, did) == 0 && WarningChanges(db.audit, did) == 0
    ensures EscalationBound(Folded(db, did, eid, t, at), did)
  {
    var db' := Folded(db, did, eid, t, at);
    var d, d' := db.decisions[did], db'.decisions[did];
    FoldedTrail(db, did, eid, t, at);
    CountAppended(db.audit, ChangeRecord(did, d, d'), did);
  }

  /** Folding into one decision leaves the bound of every other alone. */
  lemma {:induction false} FoldedKeepsOthers(db: Database, did: Id, eid: Id, t: Tenant, at: Time, other: Id)
    requires did in db.decisions && eid in db.evidences && other in db.decisions && other != did
    requires db.decisions[other].tenant in db.tenants && EscalationBound(db, other)
    ensures
      var db' := Folded(db, did, eid, t, at);
      other in db'.decisions && db'.decisions[other] == db.decisions[other] && db'.tenants == db.tenants
      && EscalationBound(db', other)
  {
    var db' := Folded(db, did, eid, t, at);
    var d, d' := db.decisions[did], db'.decisions[did];
    FoldedRows(db, did, eid, t, at);
    FoldedTrail(db, did, eid, t, at);
    CountAppended(db.audit, ChangeRecord(did, d, d'), other);
  }

  lemma FoldedAuditKnown(db: Database, did: Id, eid: Id, t: Tenant, at: Time)
    requires did in db.decisions && eid in db.evidences
    requires forall i | 0 <= i < |db.audit| :: db.audit[i].decision in db.decisions
    ensures
      var db' := Folded(db, did, eid, t, at);
      forall i | 0 <= i < |db'.audit| :: db'.audit[i].decision in db'.decisions
  {
    FoldedTrail(db, did, eid, t, at);
  }

  lemma CommittedKeepsEscalation(db: Database, found: Option<Id>, call: AggregateCall, at: Time)
    requires EscalationSound(db) && NonNegativeSeverities(db)
    requires call.newId !in db.decisions && call.newId !in db.feedback
    requires call.evidence in db.evidences && db.evidences[call.evidence].tenant in db.tenants
    requires
      var target := Target(db, found, db.evidences[call.evidence]);
      target.Some? ==> db.decisions[target.value].tenant == db.evidences[call.evidence].tenant
    requires WindowsSound(CommittedRows(db, found, call, at))
    ensures EscalationSound(CommittedRows(db, found, call, at))
  {
    var e := db.evidences[call.evidence];
    var t := db.tenants[e.tenant];
    var target := Target(db, found, e);
    var did := Chosen(db, found, call);
    var base := if target.Some? then db else Created(db, did, e, t, at);
    var db' := CommittedRows(db, found, call, at);
    CommittedShape(db, found, call, at);
    FoldedAuditKnown(base, did, call.evidence, t, at);
    if target.Some? {
      FoldedKeepsBound(db, did, call.evidence, t, at);
    } else {
      NothingCountedOfAbsent(db.audit, did);
      FirstFoldMeetsBound(base, did, call.evidence, t, at);
    }
    forall other | other in db'.decisions && other != did ensures EscalationBound(db', other) {
      assert EscalationBound(db, other);
      FoldedKeepsOthers(base, did, call.evidence, t, at, other);
    }
  }

  /******* Resolves *******/

  lemma ResolvedKeepsBound(db: Database, p: PendingResolve, at: Time, did: Id)
    requires p.decision in db.decisions && p.decision !in db.feedback && did in db.decisions
    requires db.decisions[did].tenant in db.tenants && EscalationBound(db, did)
    requires did == p.decision ==> ResolvedTogether(db, did)
    ensures EscalationBound(ResolvedRows(db, p, at), did)
  {
    CountAppended(db.audit, AuditRecord(p.decision, Payload.Resolution(p.disposition), Some(p.actor)), did);
  }

  lemma ResolvedKeepsEscalation(db: Database, p: PendingResolve, at: Time)
    requires EscalationSound(db) && ResolvedOnce(db) && p.decision in db.decisions && p.decision !in db.feedback
    ensures EscalationSound(ResolvedRows(db, p, at))
  {
    var db' := ResolvedRows(db, p, at);
    assert ResolvedTogether(db, p.decision);
    forall did | did in db'.decisions ensures EscalationBound(db', did) {
      assert EscalationBound(db, did);
      ResolvedKeepsBound(db, p, at, did);
    }
    forall r | r in db'.audit ensures r.decision in db'.decisions {
      assert r in db.audit || r.decision == p.decision;
    }
  }

  lemma RecordKeepsEscalation(db: Database, id: Id, e: Evidence)
    requires EscalationSound(db)
    ensures EscalationSound(db.(evidences := db.evidences[id := e]))
  {
    var db' := db.(evidences := db.evidences[id := e]);
    forall did | did in db'.decisions ensures EscalationBound(db', did) {
      assert EscalationBound(db, did);
    }
  }

  /******* Runs *******/

  lemma {:induction false} AggregateKeepsEscalation(w: World, call: AggregateCall, at: Time)
    requires RowsSound(w.db) && IndexSound(w) && ResolvedOnce(w.db) && EscalationSound(w.db)
    requires NonNegativeSeverities(w.db) && call.newId !in w.issued
    ensures
      var db' := AggregateWith(w, Found(w, call, at), call, at).0.db;
      EscalationSound(db') && db'.evidences == w.db.evidences
  {
    var found := Found(w, call, at);
    AggregateIsTransactional(w, found, call, at);
    if AggregateWith(w, found, call, at).1.Aggregated? {
      FoundHasKey(w, call, at);
      CommittedKeepsRows(w.db, found, call, at);
      CommittedShape(w.db, found, call, at);
      CommittedKeepsEscalation(w.db, found, call, at);
    }
  }

  lemma NextKeepsSeverities(w: World, ts: TimedStep)
    requires NonNegativeSeverities(w.db) && w.db.decisions.Keys <= w.issued
    requires ts.step.RecordEvidenceStep? ==> 0 <= ts.step.evidence.severity
    ensures NonNegativeSeverities(Next(w, ts).db)
  {
    if Enabled(w, ts) && ts.step.AggregateStep? {
      AggregateRows(w, Found(w, ts.step.call, ts.at), ts.step.call, ts.at);
    }
  }

  lemma {:induction false} NextKeepsEscalation(w: World, ts: TimedStep)
    requires RowsSound(w.db) && IndexSound(w) && ResolvedOnce(w.db) && EscalationSound(w.db)
    requires NonNegativeSeverities(w.db)
    ensures EscalationSound(Next(w, ts).db)
  {
    if Enabled(w, ts) {
      match ts.step
      case AggregateStep(call) =>
        AggregateKeepsEscalation(w, call, ts.at);
      case CommitResolveStep(req, fault) =>
        ResolveIsTransactional(w, req, ts.at, fault);
        if CommitResolve(w, req, ts.at, fault).db != w.db {
          ResolvedKeepsEscalation(w.db, w.pending[req], ts.at);
        }
      case RecordEvidenceStep(id, e) =>
        RecordKeepsEscalation(w.db, id, e);
      case _ =>
    }
  }

  lemma {:induction false} EscalationAlwaysSound(w: World, run: seq<TimedStep>)
    requires Initial(w) && RecordsNonNegative(run)
    ensures EscalationSound(After(w, run).db) && NonNegativeSeverities(After(w, run).db)
  {
    if |run| > 0 {
      var front := run[..|run| - 1];
      EscalationAlwaysSound(w, front);
      BooksAlwaysBalance(w, front);
      ResolvedAtMostOnce(w, front);
      NextKeepsEscalation(After(w, front), run[|run| - 1]);
      NextKeepsSeverities(After(w, front), run[|run| - 1]);
    }
  }

  /******* The state follows the counters *******/

  /** Resolved, or in the state that its counters compute, whatever the sign of the severities. */
  ghost predicate StateFollows(db: Database, did: Id)
    requires did in db.decisions
  {
    && db.decisions[did].tenant in db.tenants
    && (IsResolved(db.decisions[did].state) || db.decisions[did].state == Computed(db, did))
  }

  ghost predicate StatesFollow(db: Database) {
    forall did | did in db.decisions :: StateFollows(db, did)
  }

  lemma {:induction false} CommittedKeepsStates(db: Database, found: Option<Id>, call: AggregateCall, at: Time)
    requires StatesFollow(db) && call.evidence in db.evidences && db.evidences[call.evidence].tenant in db.tenants
    requires
      var target := Target(db, found, db.evidences[call.evidence]);
      target.Some? ==> db.decisions[target.value].tenant == db.evidences[call.evidence].tenant
    ensures StatesFollow(CommittedRows(db, found, call, at))
  {
    var e := db.evidences[call.evidence];
    var t, did, db' := db.tenants[e.tenant], Chosen(db, found, call), CommittedRows(db, found, call, at);
    var base := if Target(db, found, e).Some? then db else Created(db, did, e, t, at);
    CommittedShape(db, found, call, at);
    FoldedTrail(base, did, call.evidence, t, at);
    forall other | other in db'.decisions && other != did ensures StateFollows(db', other) {
      assert StateFollows(db, other);
    }
  }

  lemma {:induction false} NextKeepsStates(w: World, ts: TimedStep)
    requires StatesFollow(w.db) && IndexSound(w)
    ensures StatesFollow(Next(w, ts).db)
  {
    var db, db' := w.db, Next(w, ts).db;
    if Enabled(w, ts) && ts.step.AggregateStep? {
      var call := ts.step.call;
      var found := Found(w, call, ts.at);
      AggregateIsTransactional(w, found, call, ts.at);
      if AggregateWith(w, found, call, ts.at).1.Aggregated? {
        FoundHasKey(w, call, ts.at);
        CommittedKeepsStates(db, found, call, ts.at);
      }
    } else {
      forall did | did in db'.decisions ensures StateFollows(db', did) {
        assert StateFollows(db, did);
      }
    }
  }

  lemma {:induction false} StatesAlwaysFollow(w: World, run: seq<TimedStep>)
    requires Initial(w)
    ensures StatesFollow(After(w, run).db)
  {
    if |run| > 0 {
      var front := run[..|run| - 1];
      StatesAlwaysFollow(w, front);
      BooksAlwaysBalance(w, front);
      NextKeepsStates(After(w, front), run[|run| - 1]);
    }
  }

  /******* Notifications *******/

  ghost predicate InstantsPast(w: World) {
    && (forall i | 0 <= i < |w.sent| :: w.sent[i].at <= w.now)
    && (forall at | at in w.commits :: at <= w.now)
  }

  /** Committed warning notifications and committed changes to WARNING are the same in number. */
  ghost predicate NoticesMatch(w: World) {
    forall did :: CommittedNotices(w.sent, w.commits, did) == WarningChanges(w.db.audit, did)
  }

  /** A commit instant later than every message changes no count. */
  lemma {:induction false} LateCommit(sent: seq<Dispatch>, commits: set<Time>, at: Time, did: Id)
    requires forall i | 0 <= i < |sent| :: sent[i].at < at
    ensures CommittedNotices(sent, commits + {at}, did) == CommittedNotices(sent, commits, did)
  {
    if |sent| > 0 {
      LateCommit(sent[..|sent| - 1], commits, at, did);
    }
  }

  /** Messages add up over concatenation. */
  lemma {:induction false} NoticesAppend(sent: seq<Dispatch>, more: seq<Dispatch>, commits: set<Time>, did: Id)
    ensures CommittedNotices(sent + more, commits, did)
            == CommittedNotices(sent, commits, did) + CommittedNotices(more, commits, did)
  {
    if |more| == 0 {
      assert sent + more == sent;
    } else {
      assert (sent + more)[..|sent + more| - 1] == sent + more[..|more| - 1];
      NoticesAppend(sent, more[..|more| - 1], commits, did);
    }
  }

  lemma AnnouncementNotices(did: Id, previous: DecisionState, current: DecisionState, at: Time, fault: Fault,
      commits: set<Time>, other: Id)
    ensures
      var a := Announcement(did, previous, current, at, fault);
      && (forall i | 0 <= i < |a| :: a[i].at == at)
      && CommittedNotices(a, commits, other)
         == if other == did && current == Warning && at in commits && !AnnouncementFails(current, fault) then 1 else 0
  {
    var socket, domain := SocketEvent(did, previous, current, at), DomainEvent(did, previous, current, at);
    assert CommittedNotices([socket], commits, other) == CommittedNotices([socket][..0], commits, other) == 0;
    assert [socket, domain][..1] == [socket];
    assert CommittedNotices([socket, domain], commits, other) == 0;
    assert ([socket, domain] + [NotifyWarning(did, at)])[..2] == [socket, domain];
  }

  /** Messages of one aggregate that commits, if they count as its records do, keep the counts equal. */
  lemma CommitKeepsNotices(w: World, w': World, a: seq<Dispatch>, at: Time)
    requires NoticesMatch(w) && InstantsPast(w) && w.now < at
    requires w'.sent == w.sent + a && w'.commits == w.commits + {at}
    requires forall other ::
      CommittedNotices(a, w'.commits, other) == WarningChanges(w'.db.audit, other) - WarningChanges(w.db.audit, other)
    ensures NoticesMatch(w')
  {
    forall other ensures CommittedNotices(w'.sent, w'.commits, other) == WarningChanges(w'.db.audit, other) {
      NoticesAppend(w.sent, a, w'.commits, other);
      LateCommit(w.sent, w.commits, at, other);
    }
  }

  /** Messages of an aggregate that does not commit count for nothing. */
  lemma AbortKeepsNotices(w: World, w': World, a: seq<Dispatch>, at: Time)
    requires NoticesMatch(w) && InstantsPast(w) && w.now < at
    requires w'.sent == w.sent + a && w'.db.audit == w.db.audit && w'.commits == w.commits
    requires forall other :: CommittedNotices(a, w.commits, other) == 0
    ensures NoticesMatch(w')
  {
    forall other ensures CommittedNotices(w'.sent, w'.commits, other) == WarningChanges(w'.db.audit, other) {
      NoticesAppend(w.sent, a, w.commits, other);
    }
  }

  /** The messages that a state change announces; none without a change. */
  function Announced(base: Database, did: Id, call: AggregateCall, t: Tenant, at: Time): seq<Dispatch>
    requires did in base.decisions && call.evidence in base.evidences
  {
    var previous, current := base.decisions[did].state, Folded(base, did, call.evidence, t, at).decisions[did].state;
    if previous == current then [] else Announcement(did, previous, current, at, call.fault)
  }

  /** What `Finish` sends: everything when it commits; all, some or nothing of it when it does not. */
  lemma FinishSends(w: World, base: Database, did: Id, call: AggregateCall, t: Tenant, at: Time)
    requires did in base.decisions && call.evidence in base.evidences
    ensures
      var (w', reply) := Finish(w, base, did, call, t, at);
      var a, current := Announced(base, did, call, t, at), Folded(base, did, call.evidence, t, at).decisions[did].state;
      if reply.Aggregated?
        then w'.sent == w.sent + a && (base.decisions[did].state == current || !AnnouncementFails(current, call.fault))
      else w'.sent == w.sent || w'.sent == w.sent + a
  {
    LinkedKeepsState(base, did, call.evidence, at);
  }

  lemma LinkedKeepsState(db: Database, did: Id, eid: Id, at: Time)
    requires did in db.decisions && eid in db.evidences
    ensures Linked(db, did, eid, at).decisions[did].state == db.decisions[did].state
  {
  }

  /** One announcement counts as much as the record that explains it. */
  lemma AnnouncedMatchesRecord(base: Database, did: Id, call: AggregateCall, t: Tenant, at: Time,
      commits: set<Time>, other: Id)
    requires did in base.decisions && call.evidence in base.evidences
    requires
      var current := Folded(base, did, call.evidence, t, at).decisions[did].state;
      base.decisions[did].state == current || !AnnouncementFails(current, call.fault)
    ensures
      CommittedNotices(Announced(base, did, call, t, at), commits + {at}, other)
      == WarningChanges(Folded(base, did, call.evidence, t, at).audit, other) - WarningChanges(base.audit, other)
  {
    var d, d' := base.decisions[did], Folded(base, did, call.evidence, t, at).decisions[did];
    FoldedTrail(base, did, call.evidence, t, at);
    AnnouncementNotices(did, d.state, d'.state, at, call.fault, commits + {at}, other);
    CountAppended(base.audit, ChangeRecord(did, d, d'), other);
  }

  /** Messages of an aggregate that is not committed count for nothing. */
  lemma AnnouncedCountsNothing(base: Database, did: Id, call: AggregateCall, t: Tenant, at: Time,
      commits: set<Time>, other: Id)
    requires did in base.decisions && call.evidence in base.evidences && at !in commits
    ensures CommittedNotices(Announced(base, did, call, t, at), commits, other) == 0
  {
    var d, d' := base.decisions[did], Folded(base, did, call.evidence, t, at).decisions[did];
    AnnouncementNotices(did, d.state, d'.state, at, call.fault, commits, other);
  }

  lemma FinishKeepsNotices(w: World, base: Database, did: Id, call: AggregateCall, t: Tenant, at: Time)
    requires NoticesMatch(w) && InstantsPast(w) && w.now < at
    requires did in base.decisions && call.evidence in base.evidences && base.audit == w.db.audit
    ensures NoticesMatch(Finish(w, base, did, call, t, at).0)
  {
    var (w', reply) := Finish(w, base, did, call, t, at);
    var a := Announced(base, did, call, t, at);
    FinishShape(w, base, did, call, t, at);
    FinishSends(w, base, did, call, t, at);
    if reply.Aggregated? {
      forall other
        ensures CommittedNotices(a, w'.commits, other)
                == WarningChanges(w'.db.audit, other) - WarningChanges(w.db.audit, other)
      {
        AnnouncedMatchesRecord(base, did, call, t, at, w.commits, other);
      }
      CommitKeepsNotices(w, w', a, at);
    } else if w'.sent != w.sent {
      forall other ensures CommittedNotices(a, w.commits, other) == 0 {
        AnnouncedCountsNothing(base, did, call, t, at, w.commits, other);
      }
      AbortKeepsNotices(w, w', a, at);
    }
  }

  lemma FinishInstantsPast(w: World, base: Database, did: Id, call: AggregateCall, t: Tenant, at: Time)
    requires InstantsPast(w) && w.now < at
    requires did in base.decisions && call.evidence in base.evidences
    ensures InstantsPast(Finish(w, base, did, call, t, at).0.(now := at))
  {
    var w' := Finish(w, base, did, call, t, at).0;
    var previous, current := base.decisions[did].state, Folded(base, did, call.evidence, t, at).decisions[did].state;
    FinishShape(w, base, did, call, t, at);
    FinishSends(w, base, did, call, t, at);
    AnnouncementNotices(did, previous, current, at, call.fault, {}, did);
  }

  lemma {:induction false} AggregateKeepsNotices(w: World, call: AggregateCall, at: Time)
    requires NoticesMatch(w) && InstantsPast(w) && w.now < at
    ensures
      var w' := AggregateWith(w, Found(w, call, at), call, at).0;
      NoticesMatch(w') && InstantsPast(w'.(now := at))
  {
    if call.evidence in w.db.evidences && w.db.evidences[call.evidence].tenant in w.db.tenants {
      var found, t := Found(w, call, at), w.db.tenants[w.db.evidences[call.evidence].tenant];
      PrepareMovesOneKey(w, found, call, at);
      PrepareShape(w, found, call, at);
      var p := Prepare(w, found, call, at);
      if call.fault != LookupFails && p.Ready? {
        FinishKeepsNotices(p.world, p.base, p.decision, call, t, at);
        FinishInstantsPast(p.world, p.base, p.decision, call, t, at);
      }
    }
  }

  lemma ResolveKeepsNotices(w: World, req: Id, at: Time, fault: ResolveFault)
    requires NoticesMatch(w) && InstantsPast(w) && w.now < at && req in w.pending
    ensures
      var w' := CommitResolve(w, req, at, fault);
      NoticesMatch(w') && InstantsPast(w'.(now := at))
  {
    var w', p := CommitResolve(w, req, at, fault), w.pending[req];
    var m := ResolvedEvent(p.decision, StateFor(p.disposition), at);
    assert (w.sent + [m])[..|w.sent|] == w.sent;
    var r := AuditRecord(p.decision, Payload.Resolution(p.disposition), Some(p.actor));
    forall did ensures CommittedNotices(w'.sent, w'.commits, did) == WarningChanges(w'.db.audit, did) {
      CountAppended(w.db.audit, r, did);
    }
  }

  lemma {:induction false} NextKeepsNotices(w: World, ts: TimedStep)
    requires NoticesMatch(w) && InstantsPast(w)
    ensures NoticesMatch(Next(w, ts)) && InstantsPast(Next(w, ts))
  {
    if Enabled(w, ts) {
      match ts.step
      case AggregateStep(call) => AggregateKeepsNotices(w, call, ts.at);
      case CommitResolveStep(req, fault) => ResolveKeepsNotices(w, req, ts.at, fault);
      case _ =>
    }
  }

  lemma {:induction false} NoticesAlwaysMatch(w: World, run: seq<TimedStep>)
    requires Initial(w)
    ensures NoticesMatch(After(w, run)) && InstantsPast(After(w, run))
  {
    if |run| > 0 {
      NoticesAlwaysMatch(w, run[..|run| - 1]);
      NextKeepsNotices(After(w, run[..|run| - 1]), run[|run| - 1]);
    }
  }

  /******* The bounds *******/

  /**
   With non-negative severities, in every reachable world a decision has at most 2 + resolves state changes and has
   caused at most 1 + resolves committed notifications, resolves being 0 or 1.
   */
  lemma {:induction false} EscalationIsBounded(w: World, run: seq<TimedStep>, did: Id)
    requires Initial(w) && RecordsNonNegative(run) && did in After(w, run).db.decisions
    ensures
      var w' := After(w, run);
      var resolves := ResolvedRecords(w'.db.audit, did);
      && resolves <= 1
      && StateChanges(w'.db.audit, did) <= 2 + resolves
      && CommittedNotices(w'.sent, w'.commits, did) <= 1 + resolves
  {
    EscalationAlwaysSound(w, run);
    ResolvedAtMostOnce(w, run);
    NoticesAlwaysMatch(w, run);
    assert EscalationBound(After(w, run).db, did);
    assert ResolvedTogether(After(w, run).db, did);
  }

  /** A decision that is not resolved by the end of a run has only moved up. */
  lemma {:induction false} UnresolvedOnlyMovesUp(w: World, run: seq<TimedStep>, n: nat, did: Id)
    requires Initial(w) && RecordsNonNegative(run) && n <= |run|
    requires did in After(w, run[..n]).db.decisions
    requires did in After(w, run).db.decisions && did !in After(w, run).db.feedback
    ensures Level(After(w, run[..n]).db.decisions[did].state) <= Level(After(w, run).db.decisions[did].state)
    decreases |run|
  {
    if n < |run| {
      var front := run[..|run| - 1];
      assert front[..n] == run[..n];
      var before := After(w, front);
      VersionsOnlyGrow(w, front, n, did);
      BooksAlwaysBalance(w, front);
      NextKeepsResolution(before, run[|run| - 1], did);
      UnresolvedOnlyMovesUp(w, front, n, did);
      EscalationAlwaysSound(w, front);
      ResolvedAtMostOnce(w, front);
      NextRaisesUnresolved(before, run[|run| - 1], did);
    } else {
      assert run[..n] == run;
    }
  }

  lemma CommitRaisesUnresolved(db: Database, found: Option<Id>, call: AggregateCall, at: Time, did: Id)
    requires RowsSound(db) && EscalationSound(db) && NonNegativeSeverities(db)
    requires did in db.decisions && did !in db.feedback && ResolvedTogether(db, did)
    requires call.evidence in db.evidences && db.evidences[call.evidence].tenant in db.tenants
    requires call.newId !in db.decisions
    requires found.Some? && found.value in db.decisions ==>
      KeyOfDecision(db.decisions[found.value]) == KeyOfEvidence(db.evidences[call.evidence])
    ensures
      var db' := CommittedRows(db, found, call, at);
      did in db'.decisions && Level(db.decisions[did].state) <= Level(db'.decisions[did].state)
  {
    assert EscalationBound(db, did);
    CommittedShape(db, found, call, at);
    if did == Chosen(db, found, call) {
      LinkingRaisesComputed(db, did, call.evidence, db.tenants[db.decisions[did].tenant], at);
    }
  }

  lemma {:induction false} NextRaisesUnresolved(w: World, ts: TimedStep, did: Id)
    requires RowsSound(w.db) && IndexSound(w) && ResolvedOnce(w.db) && EscalationSound(w.db)
    requires NonNegativeSeverities(w.db) && did in w.db.decisions
    requires did in Next(w, ts).db.decisions && did !in Next(w, ts).db.feedback && did !in w.db.feedback
    ensures Level(w.db.decisions[did].state) <= Level(Next(w, ts).db.decisions[did].state)
  {
    if Enabled(w, ts) && ts.step.AggregateStep? {
      var call := ts.step.call;
      var found := Found(w, call, ts.at);
      AggregateIsTransactional(w, found, call, ts.at);
      if AggregateWith(w, found, call, ts.at).1.Aggregated? {
        FoundHasKey(w, call, ts.at);
        assert ResolvedTogether(w.db, did);
        CommitRaisesUnresolved(w.db, found, call, ts.at, did);
      }
    } else if Enabled(w, ts) && ts.step.CommitResolveStep? {
      ResolveIsTransactional(w, ts.step.req, ts.at, ts.step.fault);
    }
  }

  /******* Resolved decisions and repeated aggregates *******/

  /** The aggregator does not look at resolution: whatever it commits leaves its decision unresolved. */
  lemma CommitLeavesUnresolved(w: World, found: Option<Id>, call: AggregateCall, at: Time)
    ensures
      var (w', reply) := AggregateWith(w, found, call, at);
      reply.Aggregated? ==> reply.decision in w'.db.decisions && !IsResolved(w'.db.decisions[reply.decision].state)
  {
    AggregateIsTransactional(w, found, call, at);
    var (w', reply) := AggregateWith(w, found, call, at);
    if reply.Aggregated? {
      var e := w.db.evidences[call.evidence];
      var t := w.db.tenants[e.tenant];
      var base := if Target(w.db, found, e).Some? then w.db else Created(w.db, call.newId, e, t, at);
      FoldedTrail(base, reply.decision, call.evidence, t, at);
    }
  }

  /**
   In a reachable world, aggregating again evidence that is already linked to the decision its key names
   changes no row, key or message exactly when that decision is not resolved.
   */
  lemma {:induction false} RepeatIsIdleIffUnresolved(w0: World, run: seq<TimedStep>, call: AggregateCall, at: Time)
    requires Initial(w0) && call.fault == NoFault
    requires
      var w := After(w0, run);
      && call.evidence in w.db.evidences && w.db.evidences[call.evidence].tenant in w.db.tenants
      && var target := Target(w.db, Found(w, call, at), w.db.evidences[call.evidence]);
      target.Some? && Link(target.value, call.evidence) in w.db.links
    ensures
      var w := After(w0, run);
      var w' := AggregateWith(w, Found(w, call, at), call, at).0;
      w'.db == w.db && w'.index == w.index && w'.sent == w.sent
      <==> !IsResolved(w.db.decisions[Found(w, call, at).value].state)
  {
    var w := After(w0, run);
    StatesAlwaysFollow(w0, run);
    BooksAlwaysBalance(w0, run);
    FoundHasKey(w, call, at);
    var did := Found(w, call, at).value;
    assert StateFollows(w.db, did);
    FoldedTrail(w.db, did, call.evidence, w.db.tenants[w.db.evidences[call.evidence].tenant], at);
    CommitLeavesUnresolved(w, Found(w, call, at), call, at);
  }

  /** The evidence that opens, and later reopens, a decision. */
  function ReopeningEvidence(w: World, tenant: Id): Evidence {
    Evidence(tenant, 0, None, w.now, 0)
  }

  /** One evidence, linked to one open decision that nobody has resolved. */
  ghost predicate FreshDecision(w: World, e: Evidence, at: Time) {
    && w.now == at && e.tenant in w.db.tenants && 0 in w.db.evidences && w.db.evidences[0] == e
    && w.db.links == [Link(0, 0)] && w.db.feedback == map[] && w.pending == map[] && w.issued == {0}
    && 0 in w.db.decisions && KeyOfDecision(w.db.decisions[0]) == KeyOfEvidence(e)
    && e.capturedAt <= w.db.decisions[0].windowEnd && w.db.decisions[0].updatedAt == at
    && !IsResolved(w.db.decisions[0].state)
    && KeyOfEvidence(e) in w.index && w.index[KeyOfEvidence(e)].decision == 0
    && at + 3 < w.index[KeyOfEvidence(e)].expiresAt
  }

  /** The first aggregate of the first evidence. */
  lemma FirstAggregateIsFresh(w: World, e: Evidence, at: Time)
    requires w.db.decisions == map[] && w.db.links == [] && w.db.feedback == map[]
    requires w.index == map[] && w.issued == {} && w.pending == map[] && w.now < at
    requires e.tenant in w.db.tenants && w.db.tenants[e.tenant].windowSecs >= 0
    requires 0 in w.db.evidences && w.db.evidences[0] == e
    ensures FreshDecision(Next(w, TimedStep(AggregateStep(AggregateCall(0, 0, NoFault)), at)), e, at)
  {
    var call, t := AggregateCall(0, 0, NoFault), w.db.tenants[e.tenant];
    assert Found(w, call, at) == None;
    var base := Created(w.db, 0, e, t, at);
    assert Prepare(w, None, call, at).Ready? && Prepare(w, None, call, at).base == base;
    assert Linked(base, 0, 0, at).links == [Link(0, 0)];
    CommitLeavesUnresolved(w, None, call, at);
  }

  /** A resolve that saw the decision as it is, from its check to its commit. */
  lemma FreshIsResolved(w: World, e: Evidence, at: Time)
    requires FreshDecision(w, e, at)
    ensures
      var checked := Next(w, TimedStep(ReadResolveStep(0, ResolveRequest(e.tenant, 0, at, TruePositive, 0)), at + 1));
      var w' := Next(checked, TimedStep(CommitResolveStep(0, NoResolveFault), at + 2));
      && w'.now == at + 2 && w'.index == w.index && w'.issued == w.issued
      && w'.db == ResolvedRows(w.db, PendingResolve(0, TruePositive, 0, at + 1), at + 2)
  {
  }

  /** The same evidence again: the transition is all that is left to do, and it leaves the resolved state. */
  lemma ResolvedIsReopened(w: World, e: Evidence, at: Time)
    requires w.now < at && w.issued == {0} && w.db.links == [Link(0, 0)] && e.tenant in w.db.tenants
    requires 0 in w.db.evidences && w.db.evidences[0] == e
    requires 0 in w.db.decisions && e.capturedAt <= w.db.decisions[0].windowEnd && IsResolved(w.db.decisions[0].state)
    requires KeyOfEvidence(e) in w.index && w.index[KeyOfEvidence(e)].decision == 0
    requires at < w.index[KeyOfEvidence(e)].expiresAt
    ensures
      var w', d := Next(w, TimedStep(AggregateStep(AggregateCall(0, 1, NoFault)), at)), w.db.decisions[0];
      && w'.db.links == w.db.links && w'.db.feedback == w.db.feedback && 0 in w'.db.decisions
      && var current := w'.db.decisions[0].state;
      && !IsResolved(current) && w'.db.decisions[0] == d.(state := current, updatedAt := at)
      && w'.db.audit
         == w.db.audit + [AuditRecord(0, StateChange(d.state, current, d.evidenceCount, d.cumulativeSeverity), None)]
  {
    var call := AggregateCall(0, 1, NoFault);
    assert Found(w, call, at) == Some(0);
    assert Linked(w.db, 0, 0, at) == w.db;
  }

  lemma AfterSnoc(w: World, run: seq<TimedStep>, ts: TimedStep)
    ensures After(w, run + [ts]) == Next(After(w, run), ts)
  {
    assert (run + [ts])[..|run|] == run;
  }

  /**
   A reachable decision that is resolved and reopened: its one evidence is linked, a watcher resolves it, and the same
   evidence, aggregated again, takes it out of the resolved state with one more audit record, while feedback and
   resolution columns stay.
   */
  lemma RepeatReopensResolved(w: World, tenant: Id) returns (run: seq<TimedStep>)
    requires Initial(w) && tenant in w.db.tenants && w.db.tenants[tenant].windowSecs >= 0
    ensures |run| == 5 && run[4].step == AggregateStep(AggregateCall(0, 1, NoFault))
    ensures
      var before, after := After(w, run[..4]).db, After(w, run).db;
      && before.links == after.links == [Link(0, 0)] && 0 in before.decisions && 0 in after.decisions
      && before.decisions[0].state == ResolvedTruePositive && !IsResolved(after.decisions[0].state)
      && |after.audit| == |before.audit| + 1 && 0 in after.feedback && after.decisions[0].resolvedAt.Some?
  {
    var e := ReopeningEvidence(w, tenant);
    var at := w.now + 2;
    var record := TimedStep(RecordEvidenceStep(0, e), w.now + 1);
    var open := TimedStep(AggregateStep(AggregateCall(0, 0, NoFault)), at);
    var check := TimedStep(ReadResolveStep(0, ResolveRequest(tenant, 0, at, TruePositive, 0)), at + 1);
    var commit := TimedStep(CommitResolveStep(0, NoResolveFault), at + 2);
    var reopen := TimedStep(AggregateStep(AggregateCall(0, 1, NoFault)), at + 3);
    var front := [record] + [open] + [check] + [commit];
    run := front + [reopen];
    AfterSnoc(w, [], record);
    AfterSnoc(w, [record], open);
    AfterSnoc(w, [record] + [open], check);
    AfterSnoc(w, [record] + [open] + [check], commit);
    AfterSnoc(w, front, reopen);
    assert run[..4] == front && [] + [record] == [record];
    FirstAggregateIsFresh(After(w, [record]), e, at);
    FreshIsResolved(After(w, [record] + [open]), e, at);
    ResolvedIsReopened(After(w, front), e, at + 3);
  }
}
