/**
 What brings a decision into its state, in the terms of the thresholds and of the requests themselves: the evidence
 linked to it, against its tenant's thresholds, or the disposition that a watcher of its tenant has sent.
 */
module Causes {
  import opened Domain
  import opened Lifecycle
  import opened Bookkeeping
  import opened Resolution
  import opened Escalation

  /******* Thresholds *******/

  /** The state that so many pieces of evidence of this total severity lead to. */
  ghost predicate Leads(t: Tenant, evidences: int, severity: int, s: DecisionState) {
    && (s == Warning <==> severity >= t.warningThreshold)
    && (s == Weird <==> severity < t.warningThreshold && evidences >= t.weirdThreshold)
    && (s == Normal <==> severity < t.warningThreshold && evidences < t.weirdThreshold)
  }

  predicate InResolvedState(s: DecisionState) {
    s == ResolvedTruePositive || s == ResolvedFalsePositive || s == ResolvedFalseNegative
  }

  /**
   In every run a decision is in a resolved state, or in WARNING exactly if the evidence linked to it reaches the
   tenant's warning threshold in severity, and else in WEIRD exactly if it reaches the weird threshold in number.
   Without feedback it is in no resolved state.
   */
  lemma {:induction false} StateFollowsLinkedEvidence(w: World, run: seq<TimedStep>, did: Id)
    requires Initial(w) && did in After(w, run).db.decisions
    ensures
      var db := After(w, run).db;
      var d := db.decisions[did];
      && d.tenant in db.tenants
      && (|| InResolvedState(d.state)
          || Leads(db.tenants[d.tenant], LinkCount(db.links, did), LinkedSeverity(db.links, db.evidences, did),
                   d.state))
      && (did !in db.feedback ==> !InResolvedState(d.state))
  {
    var db := After(w, run).db;
    StatesAlwaysFollow(w, run);
    BooksAlwaysBalance(w, run);
    ResolvedAtMostOnce(w, run);
    assert StateFollows(db, did) && Counted(db, did) && ResolvedTogether(db, did);
  }

  /** The counters of the record are those of the first n links. */
  ghost predicate CountersAt(db: Database, r: AuditRecord, n: nat)
    requires r.payload.StateChange? && n <= |db.links|
  {
    && r.payload.evidenceCount == LinkCount(db.links[..n], r.decision)
    && r.payload.cumulativeSeverity == LinkedSeverity(db.links[..n], db.evidences, r.decision)
  }

  /** A record of a state change tells what evidence had been linked, and the state that it led to. */
  ghost predicate ChangeCaused(db: Database, r: AuditRecord) {
    r.payload.StateChange? ==>
      && r.actor.None? && r.decision in db.decisions && db.decisions[r.decision].tenant in db.tenants
      && var t := db.tenants[db.decisions[r.decision].tenant];
      && Leads(t, r.payload.evidenceCount, r.payload.cumulativeSeverity, r.payload.toState)
      && exists n | 0 <= n <= |db.links| :: CountersAt(db, r, n)
  }

  ghost predicate ChangesCaused(db: Database) {
    forall r | r in db.audit :: ChangeCaused(db, r)
  }

  lemma {:induction false} SeverityOfPrefix(db: Database, eid: Id, e: Evidence, n: nat, did: Id)
    requires LinksSound(db) && eid !in db.evidences && n <= |db.links|
    ensures
      LinkedSeverity(db.links[..n], db.evidences[eid := e], did) == LinkedSeverity(db.links[..n], db.evidences, did)
  {
    forall l | l in db.links[..n] ensures l.evidence != eid {
      assert l in db.links && LinkSound(db, l);
    }
    SeverityIgnoresUnlinked(db.links[..n], db.evidences, eid, e, did);
  }

  lemma {:induction false} RecordKeepsCause(db: Database, eid: Id, e: Evidence, r: AuditRecord)
    requires LinksSound(db) && eid !in db.evidences && ChangeCaused(db, r)
    ensures ChangeCaused(db.(evidences := db.evidences[eid := e]), r)
  {
    if r.payload.StateChange? {
      var n :| 0 <= n <= |db.links| && CountersAt(db, r, n);
      SeverityOfPrefix(db, eid, e, n, r.decision);
      assert CountersAt(db.(evidences := db.evidences[eid := e]), r, n);
    }
  }

  /** Links are added and decisions keep their tenant: causes stay. */
  lemma {:induction false} CauseStays(db: Database, db': Database, r: AuditRecord)
    requires ChangeCaused(db, r) && db'.evidences == db.evidences && db'.tenants == db.tenants && db.links <= db'.links
    requires forall did | did in db.decisions ::
      did in db'.decisions && db'.decisions[did].tenant == db.decisions[did].tenant
    ensures ChangeCaused(db', r)
  {
    if r.payload.StateChange? {
      var n :| 0 <= n <= |db.links| && CountersAt(db, r, n);
      assert db'.links[..n] == db.links[..n];
      assert CountersAt(db', r, n);
    }
  }

  /** The record of a committed change has the counters of the row, which are those of its links. */
  lemma {:induction false} NewChangeIsCaused(db: Database, did: Id, r: AuditRecord)
    requires RowsSound(db) && did in db.decisions && r.decision == did && r.payload.StateChange? && r.actor.None?
    requires
      var d := db.decisions[did];
      && r.payload.evidenceCount == d.evidenceCount && r.payload.cumulativeSeverity == d.cumulativeSeverity
      && r.payload.toState == ComputeState(d, db.tenants[d.tenant])
    ensures ChangeCaused(db, r)
  {
    assert Counted(db, did) && db.links[..|db.links|] == db.links;
    assert CountersAt(db, r, |db.links|);
  }

  lemma {:induction false} CommittedKeepsCauses(db: Database, found: Option<Id>, call: AggregateCall, at: Time)
    requires RowsSound(db) && ChangesCaused(db) && call.newId !in db.decisions
    requires call.evidence in db.evidences && db.evidences[call.evidence].tenant in db.tenants
    requires
      var target := Target(db, found, db.evidences[call.evidence]);
      target.Some? ==> db.decisions[target.value].tenant == db.evidences[call.evidence].tenant
    requires RowsSound(CommittedRows(db, found, call, at))
    ensures ChangesCaused(CommittedRows(db, found, call, at))
  {
    var e, did, db' := db.evidences[call.evidence], Chosen(db, found, call), CommittedRows(db, found, call, at);
    var t := db.tenants[e.tenant];
    var base := if Target(db, found, e).Some? then db else Created(db, did, e, t, at);
    CommittedShape(db, found, call, at);
    FoldedTrail(base, did, call.evidence, t, at);
    forall r | r in db'.audit ensures ChangeCaused(db', r) {
      if r in db.audit {
        CauseStays(db, db', r);
      } else {
        NewChangeIsCaused(db', did, r);
      }
    }
  }

  lemma {:induction false} ResolvedKeepsCauses(db: Database, p: PendingResolve, at: Time)
    requires ChangesCaused(db) && p.decision in db.decisions
    ensures ChangesCaused(ResolvedRows(db, p, at))
  {
    var db' := ResolvedRows(db, p, at);
    forall r | r in db'.audit ensures ChangeCaused(db', r) {
      if r in db.audit {
        CauseStays(db, db', r);
      }
    }
  }

  lemma {:induction false} NextKeepsCauses(w: World, ts: TimedStep)
    requires RowsSound(w.db) && IndexSound(w) && ChangesCaused(w.db)
    ensures ChangesCaused(Next(w, ts).db)
  {
    if Enabled(w, ts) {
      match ts.step
      case AggregateStep(call) =>
        var found := Found(w, call, ts.at);
        AggregateIsTransactional(w, found, call, ts.at);
        if AggregateWith(w, found, call, ts.at).1.Aggregated? {
          FoundHasKey(w, call, ts.at);
          CommittedKeepsRows(w.db, found, call, ts.at);
          CommittedKeepsCauses(w.db, found, call, ts.at);
        }
      case CommitResolveStep(req, fault) =>
        ResolveIsTransactional(w, req, ts.at, fault);
        if CommitResolve(w, req, ts.at, fault).db != w.db {
          ResolvedKeepsCauses(w.db, w.pending[req], ts.at);
        }
      case RecordEvidenceStep(id, e) =>
        forall r | r in w.db.audit ensures ChangeCaused(w.db.(evidences := w.db.evidences[id := e]), r) {
          RecordKeepsCause(w.db, id, e, r);
        }
      case _ =>
    }
  }

  /**
   In every run each recorded state change carries the number and the total severity of the evidence that had been
   linked at some moment, its target is the state that these lead to, and no person is its actor.
   */
  lemma {:induction false} ChangesAreCaused(w: World, run: seq<TimedStep>)
    requires Initial(w)
    ensures ChangesCaused(After(w, run).db)
  {
    if |run| > 0 {
      var front := run[..|run| - 1];
      ChangesAreCaused(w, front);
      BooksAlwaysBalance(w, front);
      NextKeepsCauses(After(w, front), run[|run| - 1]);
    }
  }

  /******* Requests *******/

  /** The state that a disposition resolves a decision to. */
  ghost predicate ResolvesTo(d: Disposition, s: DecisionState) {
    && InResolvedState(s)
    && (d == TruePositive <==> s == ResolvedTruePositive)
    && (d == FalsePositive <==> s == ResolvedFalsePositive)
    && (d == FalseNegative <==> s == ResolvedFalseNegative)
  }

  /**
   The k-th step reads a resolve request of the decision's own tenant that has seen the row as it is, of a decision that
   is not in a resolved state; what is left pending is what the request asks for.
   */
  ghost predicate RequestedAt(w: World, run: seq<TimedStep>, k: nat, p: PendingResolve) {
    && k < |run| && run[k].step.ReadResolveStep? && run[k].at == p.checkedAt
    && var r, db := run[k].step.request, After(w, run[..k]).db;
    && r.decision == p.decision && r.disposition == p.disposition && r.actor == p.actor
    && r.decision in db.decisions
    && var d := db.decisions[r.decision];
    && d.tenant == r.tenant && d.updatedAt == r.seenAt && !InResolvedState(d.state)
  }

  ghost predicate Requested(w: World, run: seq<TimedStep>, p: PendingResolve) {
    exists k: nat :: RequestedAt(w, run, k, p)
  }

  lemma {:induction false} RequestedStays(w: World, run: seq<TimedStep>, p: PendingResolve)
    requires |run| > 0 && Requested(w, run[..|run| - 1], p)
    ensures Requested(w, run, p)
  {
    var k: nat :| RequestedAt(w, run[..|run| - 1], k, p);
    assert run[..|run| - 1][..k] == run[..k];
    assert RequestedAt(w, run, k, p);
  }

  /** The resolve that the feedback and the row of a decision tell of. */
  ghost predicate ResolvedBy(db: Database, did: Id, p: PendingResolve)
    requires did in db.decisions && did in db.feedback
  {
    && p.decision == did && db.feedback[did] == Feedback(p.disposition, p.actor)
    && db.decisions[did].resolvedAt == Some(p.checkedAt) && db.decisions[did].resolvedBy == Some(p.actor)
  }

  /** The message tells of a resolve that was requested. */
  ghost predicate EventRequested(w: World, run: seq<TimedStep>, m: Dispatch) {
    m.ResolvedEvent? ==>
      exists p :: Requested(w, run, p) && p.decision == m.decision && ResolvesTo(p.disposition, m.current)
  }

  ghost predicate ToldOfResolve(sent: seq<Dispatch>, did: Id, disposition: Disposition) {
    exists m | m in sent :: m.ResolvedEvent? && m.decision == did && ResolvesTo(disposition, m.current)
  }

  ghost predicate FeedbackRequested(w: World, run: seq<TimedStep>, did: Id) {
    var w' := After(w, run);
    did in w'.db.feedback ==>
      && did in w'.db.decisions
      && (exists p :: Requested(w, run, p) && ResolvedBy(w'.db, did, p))
      && ToldOfResolve(w'.sent, did, w'.db.feedback[did].disposition)
  }

  ghost predicate AllRequested(w: World, run: seq<TimedStep>) {
    && (forall req | req in After(w, run).pending :: Requested(w, run, After(w, run).pending[req]))
    && (forall did :: FeedbackRequested(w, run, did))
    && (forall m | m in After(w, run).sent :: EventRequested(w, run, m))
  }

  /** An aggregate leaves requests and feedback alone, and tells of no resolve. */
  lemma {:induction false} AggregateTellsNoResolve(w: World, found: Option<Id>, call: AggregateCall, at: Time)
    ensures
      var w' := AggregateWith(w, found, call, at).0;
      && w'.pending == w.pending && w'.db.feedback == w.db.feedback && w.sent <= w'.sent
      && forall m | m in w'.sent && m !in w.sent :: !m.ResolvedEvent?
  {
    AggregateIsTransactional(w, found, call, at);
    if call.evidence in w.db.evidences && w.db.evidences[call.evidence].tenant in w.db.tenants {
      var t, p := w.db.tenants[w.db.evidences[call.evidence].tenant], Prepare(w, found, call, at);
      CommittedShape(w.db, found, call, at);
      PrepareMovesOneKey(w, found, call, at);
      PrepareShape(w, found, call, at);
      if call.fault != LookupFails && p.Ready? {
        FinishLeavesRedis(p.world, p.base, p.decision, call, t, at);
        FinishSends(p.world, p.base, p.decision, call, t, at);
      }
    }
  }

  /** What a step does to requests, feedback and the messages that tell of resolves. */
  lemma {:induction false} StepMovesResolves(w: World, ts: TimedStep)
    requires Enabled(w, ts)
    ensures
      var w' := Next(w, ts);
      && w.sent <= w'.sent
      && match ts.step
         case ReadResolveStep(req, r) => w'.db == w.db && w'.sent == w.sent
         case CommitResolveStep(req, _) =>
           && w'.pending == w.pending - {req}
           && (forall did | did in w'.db.feedback && did !in w.db.feedback :: did == w.pending[req].decision)
         case _ =>
           && w'.pending == w.pending && w'.db.feedback == w.db.feedback
           && forall m | m in w'.sent && m !in w.sent :: !m.ResolvedEvent?
  {
    if ts.step.AggregateStep? {
      AggregateTellsNoResolve(w, Found(w, ts.step.call, ts.at), ts.step.call, ts.at);
    }
  }

  /** A check that accepts leaves a request pending that saw the row as it is. */
  lemma {:induction false} ReadLeavesRequest(w: World, run: seq<TimedStep>, req: Id)
    requires |run| > 0 && Enabled(After(w, run[..|run| - 1]), run[|run| - 1]) && run[|run| - 1].step.ReadResolveStep?
    requires req in After(w, run).pending
    requires req !in After(w, run[..|run| - 1]).pending
    ensures Requested(w, run, After(w, run).pending[req])
  {
    assert RequestedAt(w, run, |run| - 1, After(w, run).pending[req]);
  }

  lemma {:induction false} PendingStaysRequested(w: World, run: seq<TimedStep>, req: Id)
    requires |run| > 0 && AllRequested(w, run[..|run| - 1]) && req in After(w, run).pending
    ensures Requested(w, run, After(w, run).pending[req])
  {
    var before, ts := After(w, run[..|run| - 1]), run[|run| - 1];
    if req in before.pending {
      RequestedStays(w, run, before.pending[req]);
      if Enabled(before, ts) {
        StepMovesResolves(before, ts);
      }
    } else {
      if Enabled(before, ts) {
        StepMovesResolves(before, ts);
      }
      ReadLeavesRequest(w, run, req);
    }
  }

  /** A resolve that commits writes its request, and has told of it. */
  lemma CommitWritesRequest(w: World, req: Id, at: Time, fault: ResolveFault, did: Id)
    requires req in w.pending
    requires did in CommitResolve(w, req, at, fault).db.feedback && did !in w.db.feedback
    ensures
      var w', p := CommitResolve(w, req, at, fault), w.pending[req];
      && did in w'.db.decisions && ResolvedBy(w'.db, did, p) && ToldOfResolve(w'.sent, did, p.disposition)
  {
    var w', p := CommitResolve(w, req, at, fault), w.pending[req];
    var m := w'.sent[|w.sent|];
    assert m in w'.sent && m.ResolvedEvent? && ResolvesTo(p.disposition, m.current);
  }

  lemma {:induction false} FeedbackStaysRequested(w: World, run: seq<TimedStep>, did: Id)
    requires |run| > 0 && Initial(w) && AllRequested(w, run[..|run| - 1])
    ensures FeedbackRequested(w, run, did)
  {
    var front := run[..|run| - 1];
    var before, ts, after := After(w, front), run[|run| - 1], After(w, run);
    assert FeedbackRequested(w, front, did);
    BooksAlwaysBalance(w, front);
    if did in before.db.feedback {
      var p :| Requested(w, front, p) && ResolvedBy(before.db, did, p);
      RequestedStays(w, run, p);
      NextKeepsResolution(before, ts, did);
      assert ResolvedBy(after.db, did, p);
      if Enabled(before, ts) {
        StepMovesResolves(before, ts);
      }
      var m :| m in before.sent && m.ResolvedEvent? && m.decision == did && ResolvesTo(p.disposition, m.current);
      assert m in after.sent;
    } else if did in after.db.feedback {
      StepMovesResolves(before, ts);
      var p := before.pending[ts.step.req];
      RequestedStays(w, run, p);
      CommitWritesRequest(before, ts.step.req, ts.at, ts.step.fault, did);
    }
  }

  lemma {:induction false} EventsStayRequested(w: World, run: seq<TimedStep>, m: Dispatch)
    requires |run| > 0 && AllRequested(w, run[..|run| - 1]) && m in After(w, run).sent
    ensures EventRequested(w, run, m)
  {
    var front := run[..|run| - 1];
    var before, ts := After(w, front), run[|run| - 1];
    if m in before.sent {
      assert EventRequested(w, front, m);
      if m.ResolvedEvent? {
        var p :| Requested(w, front, p) && p.decision == m.decision && ResolvesTo(p.disposition, m.current);
        RequestedStays(w, run, p);
      }
    } else if m.ResolvedEvent? {
      StepMovesResolves(before, ts);
      var p := before.pending[ts.step.req];
      RequestedStays(w, run, p);
      assert ResolvesTo(p.disposition, m.current);
    }
  }

  /**
   In every run, what is pending, every feedback row with its decision's resolved_at and resolved_by, and every message
   of a resolve go back to a request of the decision's own tenant that had seen the row as it was, unresolved; a
   feedback row has been told of; and messages name the state of the requested disposition.
   */
  lemma {:induction false} ResolvesWereRequested(w: World, run: seq<TimedStep>)
    requires Initial(w)
    ensures AllRequested(w, run)
  {
    if |run| > 0 {
      ResolvesWereRequested(w, run[..|run| - 1]);
      forall req | req in After(w, run).pending ensures Requested(w, run, After(w, run).pending[req]) {
        PendingStaysRequested(w, run, req);
      }
      forall did ensures FeedbackRequested(w, run, did) {
        FeedbackStaysRequested(w, run, did);
      }
      forall m | m in After(w, run).sent ensures EventRequested(w, run, m) {
        EventsStayRequested(w, run, m);
      }
    }
  }

  /** In every run a decision in a resolved state has feedback, and the state is that of the feedback's disposition. */
  lemma {:induction false} ResolvedStateIsDisposition(w: World, run: seq<TimedStep>, did: Id)
    requires Initial(w) && did in After(w, run).db.decisions
    ensures
      var db := After(w, run).db;
      InResolvedState(db.decisions[did].state) ==>
        did in db.feedback && ResolvesTo(db.feedback[did].disposition, db.decisions[did].state)
  {
    ResolvedAtMostOnce(w, run);
    assert ResolvedTogether(After(w, run).db, did);
  }

  /******* Refusals *******/

  /** To another tenant a decision looks as if it were not there. */
  lemma OtherTenantsSeeNothing(db: Database, r: ResolveRequest)
    requires r.decision in db.decisions && db.decisions[r.decision].tenant != r.tenant
    ensures CheckResolve(db, r) == CheckResolve(db.(decisions := db.decisions - {r.decision}), r) == NotFound
  {
  }

  /**
   A request of the decision's tenant is refused as stale exactly if the row has changed since it was seen, whatever its
   state; only of a row that was seen as it is does the reply say whether it is resolved.
   */
  lemma {:induction false} RefusalsIff(w: World, run: seq<TimedStep>, n: nat, r: ResolveRequest)
    requires Initial(w) && n <= |run| && r.decision in After(w, run[..n]).db.decisions
    requires After(w, run[..n]).db.decisions[r.decision].tenant == r.tenant
    requires r.seenAt == After(w, run[..n]).db.decisions[r.decision].updatedAt
    ensures
      var seen, db := After(w, run[..n]).db.decisions[r.decision], After(w, run).db;
      && r.decision in db.decisions
      && (CheckResolve(db, r) == StaleVersion <==> db.decisions[r.decision] != seen)
      && (CheckResolve(db, r) == AlreadyResolved <==> db.decisions[r.decision] == seen && InResolvedState(seen.state))
      && (CheckResolve(db, r) == Accepted <==> db.decisions[r.decision] == seen && !InResolvedState(seen.state))
  {
    VersionsOnlyGrow(w, run, n, r.decision);
    VersionsAlwaysPast(w, run[..n]);
    TenantStays(w, run, n, r.decision);
  }

  lemma {:induction false} TenantStays(w: World, run: seq<TimedStep>, n: nat, did: Id)
    requires Initial(w) && n <= |run| && did in After(w, run[..n]).db.decisions
    ensures did in After(w, run).db.decisions
    ensures After(w, run).db.decisions[did].tenant == After(w, run[..n]).db.decisions[did].tenant
    decreases |run|
  {
    if n < |run| {
      var front := run[..|run| - 1];
      assert front[..n] == run[..n];
      TenantStays(w, front, n, did);
      BooksAlwaysBalance(w, front);
      NextKeepsIdentity(After(w, front), run[|run| - 1]);
    } else {
      assert run[..n] == run;
    }
  }
}
