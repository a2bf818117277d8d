/**
 A decision is resolved at most once, however many resolves race, and although an aggregate may move
 the decision out of its resolved state again.
 */
module Resolution {
  import opened Domain
  import opened Lifecycle
  import opened Bookkeeping

  /** Number of "resolved" audit records of a decision. */
  function ResolvedRecords(audit: seq<AuditRecord>, did: Id): nat {
    if |audit| == 0 then 0
    else
      var r := audit[|audit| - 1];
      var rest := ResolvedRecords(audit[..|audit| - 1], did);
      if r.decision == did && r.payload.Resolution? then rest + 1 else rest
  }

  /** A feedback row, one resolved record and the resolved_at/resolved_by columns come together or not at all. */
  ghost predicate ResolvedTogether(db: Database, did: Id)
    requires did in db.decisions
  {
    var d := db.decisions[did];
    && ResolvedRecords(db.audit, did) == (if did in db.feedback then 1 else 0)
    && (did in db.feedback <==> d.resolvedAt.Some?)
    && d.resolvedBy == (if did in db.feedback then Some(db.feedback[did].submittedBy) else None)
    && (IsResolved(d.state) ==> did in db.feedback && d.state == StateFor(db.feedback[did].disposition))
  }

  /** A resolved record tells the disposition and the actor of the feedback row. */
  ghost predicate RecordMatchesFeedback(db: Database, r: AuditRecord) {
    && r.decision in db.decisions
    && (r.payload.Resolution? ==>
          && r.decision in db.feedback
          && r.payload.disposition == db.feedback[r.decision].disposition
          && r.actor == Some(db.feedback[r.decision].submittedBy))
  }

  ghost predicate ResolvedOnce(db: Database) {
    && db.feedback.Keys <= db.decisions.Keys
    && (forall did | did in db.decisions :: ResolvedTogether(db, did))
    && (forall i | 0 <= i < |db.audit| :: RecordMatchesFeedback(db, db.audit[i]))
  }

  lemma {:induction false} NoRecordsOfAbsent(audit: seq<AuditRecord>, did: Id)
    requires forall i | 0 <= i < |audit| :: audit[i].decision != did
    ensures ResolvedRecords(audit, did) == 0
  {
    if |audit| > 0 {
      NoRecordsOfAbsent(audit[..|audit| - 1], did);
    }
  }

  lemma CreatedKeepsResolved(db: Database, id: Id, e: Evidence, t: Tenant, at: Time)
    requires ResolvedOnce(db) && id !in db.decisions
    ensures ResolvedOnce(Created(db, id, e, t, at))
  {
    var db' := Created(db, id, e, t, at);
    forall i | 0 <= i < |db.audit| ensures db.audit[i].decision != id && RecordMatchesFeedback(db', db.audit[i]) {
      assert RecordMatchesFeedback(db, db.audit[i]);
    }
    NoRecordsOfAbsent(db.audit, id);
    forall did | did in db'.decisions ensures ResolvedTogether(db', did) {
      assert did == id || ResolvedTogether(db, did);
    }
  }

  lemma LinkedKeepsResolved(db: Database, did: Id, eid: Id, at: Time)
    requires ResolvedOnce(db) && did in db.decisions && eid in db.evidences
    ensures ResolvedOnce(Linked(db, did, eid, at))
  {
    var db' := Linked(db, did, eid, at);
    forall i | 0 <= i < |db.audit| ensures RecordMatchesFeedback(db', db.audit[i]) {
      assert RecordMatchesFeedback(db, db.audit[i]);
    }
    forall d | d in db'.decisions ensures ResolvedTogether(db', d) {
      assert ResolvedTogether(db, d);
    }
  }

  lemma AppendedRecord(audit: seq<AuditRecord>, r: AuditRecord, did: Id)
    ensures ResolvedRecords(audit + [r], did)
            == ResolvedRecords(audit, did) + if r.decision == did && r.payload.Resolution? then 1 else 0
  {
    assert (audit + [r])[..|audit|] == audit;
  }

  lemma TransitionedKeepsResolved(db: Database, did: Id, t: Tenant, at: Time)
    requires ResolvedOnce(db) && did in db.decisions
    ensures ResolvedOnce(Transitioned(db, did, t, at))
  {
    var db' := Transitioned(db, did, t, at);
    if ComputeState(db.decisions[did], t) != db.decisions[did].state {
      var r := db'.audit[|db.audit|];
      forall i | 0 <= i < |db'.audit| ensures RecordMatchesFeedback(db', db'.audit[i]) {
        if i < |db.audit| {
          assert RecordMatchesFeedback(db, db.audit[i]);
        }
      }
      assert !IsResolved(db'.decisions[did].state);
      forall d | d in db'.decisions ensures ResolvedTogether(db', d) {
        AppendedRecord(db.audit, r, d);
        assert ResolvedTogether(db, d);
      }
    }
  }

  lemma ResolveKeepsResolved(db: Database, p: PendingResolve, at: Time)
    requires ResolvedOnce(db) && p.decision in db.decisions && p.decision !in db.feedback
    ensures ResolvedOnce(ResolvedRows(db, p, at))
  {
    var db' := ResolvedRows(db, p, at);
    assert db'.audit[..|db'.audit| - 1] == db.audit;
    forall i | 0 <= i < |db'.audit| ensures RecordMatchesFeedback(db', db'.audit[i]) {
      if i < |db.audit| {
        assert RecordMatchesFeedback(db, db.audit[i]);
      }
    }
    forall d | d in db'.decisions ensures ResolvedTogether(db', d) {
      assert ResolvedTogether(db, d);
    }
  }

  lemma {:induction false} NextKeepsResolved(w: World, ts: TimedStep)
    requires ResolvedOnce(w.db) && IndexSound(w)
    ensures ResolvedOnce(Next(w, ts).db)
  {
    if Enabled(w, ts) {
      match ts.step
      case AggregateStep(call) =>
        var found := Found(w, call, ts.at);
        AggregateIsTransactional(w, found, call, ts.at);
        if call.evidence in w.db.evidences && w.db.evidences[call.evidence].tenant in w.db.tenants {
          var e := w.db.evidences[call.evidence];
          var t := w.db.tenants[e.tenant];
          var target := Target(w.db, found, e);
          var did := Chosen(w.db, found, call);
          if target.None? {
            CreatedKeepsResolved(w.db, did, e, t, ts.at);
          }
          var base := if target.Some? then w.db else Created(w.db, did, e, t, ts.at);
          LinkedKeepsResolved(base, did, call.evidence, ts.at);
          TransitionedKeepsResolved(Linked(base, did, call.evidence, ts.at), did, t, ts.at);
        }
      case CommitResolveStep(req, fault) =>
        var p := w.pending[req];
        if p.decision in w.db.decisions && p.decision !in w.db.feedback {
          ResolveKeepsResolved(w.db, p, ts.at);
        }
      case RecordEvidenceStep(id, e) =>
        var db' := w.db.(evidences := w.db.evidences[id := e]);
        assert forall did | did in w.db.decisions :: ResolvedTogether(w.db, did) ==> ResolvedTogether(db', did);
        assert forall i | 0 <= i < |w.db.audit| ::
          RecordMatchesFeedback(w.db, w.db.audit[i]) ==> RecordMatchesFeedback(db', db'.audit[i]);
      case _ =>
    }
  }

  /**
   With any number of resolves between check and commit, and aggregates in between, every decision has
   at most one committed resolve: exactly one feedback row, one "resolved" record of the same
   disposition and actor, and resolved_at/resolved_by set, or none of them.
   */
  lemma {:induction false} ResolvedAtMostOnce(w: World, run: seq<TimedStep>)
    requires Initial(w)
    ensures ResolvedOnce(After(w, run).db)
  {
    if |run| > 0 {
      var front := run[..|run| - 1];
      ResolvedAtMostOnce(w, front);
      BooksAlwaysBalance(w, front);
      NextKeepsResolved(After(w, front), run[|run| - 1]);
    }
  }

  /** What a resolve wrote stays written. */
  ghost predicate ResolutionKept(db: Database, db': Database, did: Id) {
    did in db.feedback && did in db.decisions ==>
      && did in db'.feedback && did in db'.decisions
      && db'.feedback[did] == db.feedback[did]
      && db'.decisions[did].resolvedAt == db.decisions[did].resolvedAt
      && db'.decisions[did].resolvedBy == db.decisions[did].resolvedBy
  }

  lemma {:induction false} NextKeepsResolution(w: World, ts: TimedStep, did: Id)
    requires w.db.decisions.Keys <= w.issued
    ensures ResolutionKept(w.db, Next(w, ts).db, did)
  {
    if Enabled(w, ts) && ts.step.AggregateStep? {
      AggregateRows(w, Found(w, ts.step.call, ts.at), ts.step.call, ts.at);
    }
  }

  /** Once a resolve has committed, its feedback row and resolved_at/resolved_by never change again. */
  lemma {:induction false} ResolutionIsFinal(w: World, run: seq<TimedStep>, n: nat, did: Id)
    requires Initial(w) && n <= |run|
    ensures ResolutionKept(After(w, run[..n]).db, After(w, run).db, did)
    decreases |run|
  {
    if n < |run| {
      var front := run[..|run| - 1];
      ResolutionIsFinal(w, front, n, did);
      assert front[..n] == run[..n];
      BooksAlwaysBalance(w, front);
      NextKeepsResolution(After(w, front), run[|run| - 1], did);
    } else {
      assert run[..n] == run;
    }
  }

  /******* The optimistic version *******/

  ghost predicate VersionsPast(w: World) {
    forall did | did in w.db.decisions :: w.db.decisions[did].updatedAt <= w.now
  }

  lemma {:induction false} NextMovesVersion(w: World, ts: TimedStep)
    requires VersionsPast(w) && w.db.decisions.Keys <= w.issued
    ensures VersionsPast(Next(w, ts)) && w.now <= Next(w, ts).now
    ensures forall did | did in w.db.decisions ::
      && did in Next(w, ts).db.decisions
      && (|| Next(w, ts).db.decisions[did] == w.db.decisions[did]
          || w.now < Next(w, ts).db.decisions[did].updatedAt)
  {
    if Enabled(w, ts) && ts.step.AggregateStep? {
      AggregateRows(w, Found(w, ts.step.call, ts.at), ts.step.call, ts.at);
    }
  }

  lemma {:induction false} VersionsAlwaysPast(w: World, run: seq<TimedStep>)
    requires Initial(w)
    ensures VersionsPast(After(w, run))
  {
    if |run| > 0 {
      VersionsAlwaysPast(w, run[..|run| - 1]);
      BooksAlwaysBalance(w, run[..|run| - 1]);
      NextMovesVersion(After(w, run[..|run| - 1]), run[|run| - 1]);
    }
  }

  lemma {:induction false} VersionsOnlyGrow(w: World, run: seq<TimedStep>, n: nat, did: Id)
    requires Initial(w) && n <= |run| && did in After(w, run[..n]).db.decisions
    ensures
      var w0, w1 := After(w, run[..n]), After(w, run);
      && w0.now <= w1.now
      && did in w1.db.decisions
      && (w1.db.decisions[did] == w0.db.decisions[did] || w0.now < w1.db.decisions[did].updatedAt)
    decreases |run|
  {
    if n < |run| {
      var front := run[..|run| - 1];
      assert front[..n] == run[..n];
      VersionsOnlyGrow(w, front, n, did);
      BooksAlwaysBalance(w, front);
      VersionsAlwaysPast(w, front);
      NextMovesVersion(After(w, front), run[|run| - 1]);
    } else {
      assert run[..n] == run;
    }
  }

  /**
   The version that a resolve compares identifies the row: a check that passes with an updated_at seen
   earlier reads exactly the row that was seen.
   */
  lemma AcceptedCheckSawTheRow(w: World, run: seq<TimedStep>, n: nat, r: ResolveRequest)
    requires Initial(w) && n <= |run| && r.decision in After(w, run[..n]).db.decisions
    requires r.seenAt == After(w, run[..n]).db.decisions[r.decision].updatedAt
    requires CheckResolve(After(w, run).db, r) == Accepted
    ensures After(w, run).db.decisions[r.decision] == After(w, run[..n]).db.decisions[r.decision]
  {
    VersionsOnlyGrow(w, run, n, r.decision);
    VersionsAlwaysPast(w, run[..n]);
  }
}
