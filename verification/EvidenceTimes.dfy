/**
 The evidence times of a decision: the first is the start of its window, the last is the capture time of the
 evidence linked last, which with late arrivals need not be the latest.
 */
module EvidenceTimes {
  import opened Domain
  import opened Lifecycle
  import opened Bookkeeping

  /** Capture time of the evidence that was linked last. */
  function LastCaptured(links: seq<Link>, evidences: map<Id, Evidence>, did: Id): Option<Time> {
    if |links| == 0 then None
    else
      var l := links[|links| - 1];
      if l.decision == did && l.evidence in evidences then Some(evidences[l.evidence].capturedAt)
      else LastCaptured(links[..|links| - 1], evidences, did)
  }

  ghost predicate Dated(db: Database, did: Id)
    requires did in db.decisions
  {
    var d := db.decisions[did];
    && d.firstEvidenceAt == Some(d.windowStart)
    && d.lastEvidenceAt.Some? && d.lastEvidenceAt == LastCaptured(db.links, db.evidences, did)
  }

  ghost predicate TimesSound(db: Database) {
    forall did | did in db.decisions :: Dated(db, did)
  }

  lemma LastAppended(links: seq<Link>, l: Link, evidences: map<Id, Evidence>, did: Id)
    requires l.evidence in evidences
    ensures
      LastCaptured(links + [l], evidences, did)
      == if l.decision == did then Some(evidences[l.evidence].capturedAt) else LastCaptured(links, evidences, did)
  {
    assert (links + [l])[..|links|] == links;
  }

  lemma {:induction false} LastIgnoresUnlinked(links: seq<Link>, evidences: map<Id, Evidence>, eid: Id,
      e: Evidence, did: Id)
    requires eid !in evidences && forall l | l in links :: l.evidence in evidences
    ensures LastCaptured(links, evidences[eid := e], did) == LastCaptured(links, evidences, did)
  {
    if |links| > 0 {
      assert links[|links| - 1] in links;
      LastIgnoresUnlinked(links[..|links| - 1], evidences, eid, e, did);
    }
  }

  /** What folding evidence in does to the decision's times. */
  lemma FoldedTimes(db: Database, did: Id, eid: Id, t: Tenant, at: Time)
    requires did in db.decisions && eid in db.evidences && db.decisions[did].firstEvidenceAt.Some?
    ensures
      var d, d' := db.decisions[did], Folded(db, did, eid, t, at).decisions[did];
      && d'.firstEvidenceAt == d.firstEvidenceAt
      && d'.lastEvidenceAt == if Link(did, eid) in db.links then d.lastEvidenceAt
          else Some(db.evidences[eid].capturedAt)
  {
  }

  lemma {:induction false} FoldedKeepsTimes(db: Database, did: Id, eid: Id, t: Tenant, at: Time)
    requires did in db.decisions && eid in db.evidences
    requires forall other | other in db.decisions && other != did :: Dated(db, other)
    requires
      Dated(db, did)
      || (db.decisions[did].firstEvidenceAt == Some(db.decisions[did].windowStart) && Link(did, eid) !in db.links)
    ensures TimesSound(Folded(db, did, eid, t, at))
  {
    var db' := Folded(db, did, eid, t, at);
    FoldedRows(db, did, eid, t, at);
    FoldedTimes(db, did, eid, t, at);
    forall other | other in db'.decisions ensures Dated(db', other) {
      if Link(did, eid) !in db.links {
        LastAppended(db.links, Link(did, eid), db.evidences, other);
      }
    }
  }

  lemma {:induction false} CommittedKeepsTimes(db: Database, found: Option<Id>, call: AggregateCall, at: Time)
    requires TimesSound(db) && LinksSound(db) && call.newId !in db.decisions
    requires call.evidence in db.evidences && db.evidences[call.evidence].tenant in db.tenants
    ensures TimesSound(CommittedRows(db, found, call, at))
  {
    var e := db.evidences[call.evidence];
    var t, did := db.tenants[e.tenant], Chosen(db, found, call);
    if Target(db, found, e).Some? {
      FoldedKeepsTimes(db, did, call.evidence, t, at);
    } else {
      var base := Created(db, did, e, t, at);
      forall other | other in base.decisions && other != did ensures Dated(base, other) {
        assert Dated(db, other);
      }
      forall l | l in db.links ensures l.decision != did {
        assert LinkSound(db, l);
      }
      FoldedKeepsTimes(base, did, call.evidence, t, at);
    }
  }

  lemma RecordKeepsTimes(db: Database, eid: Id, e: Evidence)
    requires TimesSound(db) && LinksSound(db) && eid !in db.evidences
    ensures TimesSound(db.(evidences := db.evidences[eid := e]))
  {
    var db' := db.(evidences := db.evidences[eid := e]);
    forall l | l in db.links ensures l.evidence in db.evidences {
      assert LinkSound(db, l);
    }
    forall did | did in db'.decisions ensures Dated(db', did) {
      assert Dated(db, did);
      LastIgnoresUnlinked(db.links, db.evidences, eid, e, did);
    }
  }

  lemma ResolvedKeepsTimes(db: Database, p: PendingResolve, at: Time)
    requires TimesSound(db) && p.decision in db.decisions
    ensures TimesSound(ResolvedRows(db, p, at))
  {
    forall did | did in ResolvedRows(db, p, at).decisions ensures Dated(ResolvedRows(db, p, at), did) {
      assert Dated(db, did);
    }
  }

  lemma {:induction false} NextKeepsTimes(w: World, ts: TimedStep)
    requires TimesSound(w.db) && RowsSound(w.db) && IndexSound(w)
    ensures TimesSound(Next(w, ts).db)
  {
    if Enabled(w, ts) {
      match ts.step
      case AggregateStep(call) =>
        AggregateIsTransactional(w, Found(w, call, ts.at), call, ts.at);
        if AggregateWith(w, Found(w, call, ts.at), call, ts.at).1.Aggregated? {
          CommittedKeepsTimes(w.db, Found(w, call, ts.at), call, ts.at);
        }
      case CommitResolveStep(req, fault) =>
        if w.pending[req].decision in w.db.decisions {
          ResolvedKeepsTimes(w.db, w.pending[req], ts.at);
        }
      case RecordEvidenceStep(id, e) =>
        RecordKeepsTimes(w.db, id, e);
      case _ =>
    }
  }

  /**
   In every reachable world a decision's first_evidence_at is the start of its window, and its last_evidence_at is the
   capture time of the evidence linked to it last.
   */
  lemma {:induction false} EvidenceTimesFollowLinks(w: World, run: seq<TimedStep>)
    requires Initial(w)
    ensures TimesSound(After(w, run).db)
  {
    if |run| > 0 {
      var front := run[..|run| - 1];
      EvidenceTimesFollowLinks(w, front);
      BooksAlwaysBalance(w, front);
      NextKeepsTimes(After(w, front), run[|run| - 1]);
    }
  }
}
