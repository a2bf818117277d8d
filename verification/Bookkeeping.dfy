/**
 What every reachable world keeps about its rows and keys: counters that agree with the links, links
 that stay within one (tenant, camera, region) and below the window's end, and an open-decision index
 whose entries are dangling or name a decision of exactly their key.
 */
module Bookkeeping {
  import opened Domain
  import opened Lifecycle

  /******* The invariant *******/

  /** Number of links of a decision. */
  function LinkCount(links: seq<Link>, did: Id): nat {
    if |links| == 0 then 0
    else
      var rest := LinkCount(links[..|links| - 1], did);
      if links[|links| - 1].decision == did then rest + 1 else rest
  }

  function SeverityOf(evidences: map<Id, Evidence>, eid: Id): int {
    if eid in evidences then evidences[eid].severity else 0
  }

  /** Total severity of the evidence linked to a decision. */
  function LinkedSeverity(links: seq<Link>, evidences: map<Id, Evidence>, did: Id): int {
    if |links| == 0 then 0
    else
      var rest := LinkedSeverity(links[..|links| - 1], evidences, did);
      var l := links[|links| - 1];
      if l.decision == did then rest + SeverityOf(evidences, l.evidence) else rest
  }

  /** Both ends of the link exist and agree on tenant, camera and region. */
  ghost predicate LinkSound(db: Database, l: Link) {
    && l.decision in db.decisions && l.evidence in db.evidences
    && var e, d := db.evidences[l.evidence], db.decisions[l.decision];
       e.tenant == d.tenant && e.camera == d.camera && e.region == d.region
  }

  ghost predicate LinksSound(db: Database) {
    && (forall l | l in db.links :: LinkSound(db, l))
    && (forall i, j | 0 <= i < j < |db.links| :: db.links[i] != db.links[j])
  }

  ghost predicate Counted(db: Database, did: Id)
    requires did in db.decisions
  {
    && db.decisions[did].evidenceCount == LinkCount(db.links, did)
    && db.decisions[did].cumulativeSeverity == LinkedSeverity(db.links, db.evidences, did)
  }

  ghost predicate CountersSound(db: Database) {
    forall did | did in db.decisions :: Counted(db, did)
  }

  /** A decision's window has its tenant's length, one for which the open key has a positive expiry. */
  ghost predicate WindowsSound(db: Database) {
    forall did | did in db.decisions ::
      && db.decisions[did].tenant in db.tenants
      && 0 < db.tenants[db.decisions[did].tenant].windowSecs + 300
      && db.decisions[did].windowEnd
         == db.decisions[did].windowStart + Seconds(db.tenants[db.decisions[did].tenant].windowSecs)
  }

  ghost predicate RowsSound(db: Database) {
    LinksSound(db) && CountersSound(db) && WindowsSound(db)
  }

  /** No linked evidence was captured after its decision's window. */
  ghost predicate LinksWithinWindows(db: Database) {
    forall l | l in db.links && l.decision in db.decisions && l.evidence in db.evidences ::
      db.evidences[l.evidence].capturedAt <= db.decisions[l.decision].windowEnd
  }

  /** Every open key is dangling or names a decision of exactly that key. */
  ghost predicate IndexSound(w: World) {
    && w.db.decisions.Keys <= w.issued
    && (forall k | k in w.index :: w.index[k].decision in w.issued)
    && (forall k | k in w.index && w.index[k].decision in w.db.decisions ::
          var d := w.db.decisions[w.index[k].decision];
          k.tenant == d.tenant && k.camera == d.camera && k.region == d.region)
  }

  /** No tenant has a window that is negative and yet long enough to create decisions. */
  ghost predicate UsableWindows(db: Database) {
    forall t | t in db.tenants :: 0 <= db.tenants[t].windowSecs || db.tenants[t].windowSecs + 300 <= 0
  }

  /******* What an aggregate leaves in the database *******/

  /** The rows after an aggregate that commits. */
  function CommittedRows(db: Database, found: Option<Id>, call: AggregateCall, at: Time): Database
    requires call.evidence in db.evidences && db.evidences[call.evidence].tenant in db.tenants
  {
    var e := db.evidences[call.evidence];
    var t := db.tenants[e.tenant];
    var target := Target(db, found, e);
    if target.Some? then Folded(db, target.value, call.evidence, t, at)
    else Folded(Created(db, call.newId, e, t, at), call.newId, call.evidence, t, at)
  }

  /** The decision an aggregate is about. */
  function Chosen(db: Database, found: Option<Id>, call: AggregateCall): Id
    requires call.evidence in db.evidences
  {
    var target := Target(db, found, db.evidences[call.evidence]);
    if target.Some? then target.value else call.newId
  }

  /** What `Prepare` leaves: the rows as they were, and in `base` the decision that takes the evidence. */
  lemma PrepareShape(w: World, found: Option<Id>, call: AggregateCall, at: Time)
    requires call.evidence in w.db.evidences && w.db.evidences[call.evidence].tenant in w.db.tenants
    ensures
      var e := w.db.evidences[call.evidence];
      var t, p := w.db.tenants[e.tenant], Prepare(w, found, call, at);
      && p.world.db == w.db && p.world.commits == w.commits && p.world.sent == w.sent
      && (p.Stopped? ==> !p.reply.Aggregated?)
      && (p.Ready? ==>
            && p.decision == Chosen(w.db, found, call)
            && p.base == (if Target(w.db, found, e).Some? then w.db else Created(w.db, call.newId, e, t, at))
            && (Target(w.db, found, e).None? ==> 0 < t.windowSecs + 300))
  {
  }

  /** `Finish` commits the folded rows or leaves the rows alone. */
  lemma FinishShape(w: World, base: Database, did: Id, call: AggregateCall, t: Tenant, at: Time)
    requires did in base.decisions && call.evidence in base.evidences
    ensures
      var (w', reply) := Finish(w, base, did, call, t, at);
      if reply.Aggregated? then
        && reply.decision == did && w'.db == Folded(base, did, call.evidence, t, at)
        && w'.commits == w.commits + {at}
      else w'.db == w.db && w'.commits == w.commits
  {
  }

  /**
   An aggregate is all or nothing on the rows, whatever call raises: it replies with the decision and
   leaves exactly the committed rows, or it leaves the rows as they were.
   */
  lemma AggregateIsTransactional(w: World, found: Option<Id>, call: AggregateCall, at: Time)
    ensures
      var (w', reply) := AggregateWith(w, found, call, at);
      if reply.Aggregated? then
        && call.evidence in w.db.evidences && w.db.evidences[call.evidence].tenant in w.db.tenants
        && w'.db == CommittedRows(w.db, found, call, at)
        && reply.decision == Chosen(w.db, found, call)
        && (Target(w.db, found, w.db.evidences[call.evidence]).None? ==>
              0 < w.db.tenants[w.db.evidences[call.evidence].tenant].windowSecs + 300)
        && w'.commits == w.commits + {at}
      else w'.db == w.db && w'.commits == w.commits
  {
    if call.evidence in w.db.evidences && w.db.evidences[call.evidence].tenant in w.db.tenants {
      PrepareShape(w, found, call, at);
      var p, t := Prepare(w, found, call, at), w.db.tenants[w.db.evidences[call.evidence].tenant];
      if p.Ready? {
        FinishShape(p.world, p.base, p.decision, call, t, at);
      }
    }
  }

  /** The fields of a decision that never change. */
  ghost predicate SameIdentity(d: Decision, d': Decision) {
    && d.tenant == d'.tenant && d.camera == d'.camera && d.region == d'.region
    && d.windowStart == d'.windowStart && d.windowEnd == d'.windowEnd
  }

  /** What an aggregate may do to a row it did not create. */
  ghost predicate RowMoved(d: Decision, d': Decision, at: Time) {
    && SameIdentity(d, d')
    && d'.resolvedAt == d.resolvedAt && d'.resolvedBy == d.resolvedBy
    && (d' == d || d'.updatedAt == at)
  }

  /** Folding evidence into a decision touches that row only. */
  lemma FoldedRows(db: Database, did: Id, eid: Id, t: Tenant, at: Time)
    requires did in db.decisions && eid in db.evidences
    ensures
      var db' := Folded(db, did, eid, t, at);
      && db'.tenants == db.tenants && db'.evidences == db.evidences && db'.feedback == db.feedback
      && did in db'.decisions && RowMoved(db.decisions[did], db'.decisions[did], at)
      && db'.decisions == db.decisions[did := db'.decisions[did]]
      && db'.links == if Link(did, eid) in db.links then db.links else db.links + [Link(did, eid)]
  {
    assert db.decisions[did := db.decisions[did]] == db.decisions;
  }

  /** The rows after a committed aggregate, by what became of the chosen decision. */
  lemma CommittedShape(db: Database, found: Option<Id>, call: AggregateCall, at: Time)
    requires call.evidence in db.evidences && db.evidences[call.evidence].tenant in db.tenants
    ensures
      var db', did := CommittedRows(db, found, call, at), Chosen(db, found, call);
      var e := db.evidences[call.evidence];
      && db'.tenants == db.tenants && db'.evidences == db.evidences && db'.feedback == db.feedback
      && did in db'.decisions && db'.decisions == db.decisions[did := db'.decisions[did]]
      && (if Target(db, found, e).Some? then RowMoved(db.decisions[did], db'.decisions[did], at)
          else RowMoved(NewDecision(e, db.tenants[e.tenant], at), db'.decisions[did], at))
      && db'.links == if Link(did, call.evidence) in db.links then db.links else db.links + [Link(did, call.evidence)]
  {
    var e := db.evidences[call.evidence];
    var t := db.tenants[e.tenant];
    var did := Chosen(db, found, call);
    if Target(db, found, e).Some? {
      FoldedRows(db, did, call.evidence, t, at);
    } else {
      FoldedRows(Created(db, did, e, t, at), did, call.evidence, t, at);
    }
  }

  /** What any aggregate does to the rows that were there, and which row it may add. */
  lemma {:induction false} AggregateRows(w: World, found: Option<Id>, call: AggregateCall, at: Time)
    requires call.newId !in w.db.decisions
    ensures
      var db, db' := w.db, AggregateWith(w, found, call, at).0.db;
      && db'.tenants == db.tenants && db'.evidences == db.evidences && db'.feedback == db.feedback
      && (forall did | did in db.decisions ::
            did in db'.decisions && RowMoved(db.decisions[did], db'.decisions[did], at))
      && (db'.decisions.Keys == db.decisions.Keys
          || (&& call.evidence in db.evidences && db.evidences[call.evidence].tenant in db.tenants
              && db'.decisions.Keys == db.decisions.Keys + {call.newId}
              && var e := db.evidences[call.evidence];
              && RowMoved(NewDecision(e, db.tenants[e.tenant], at), db'.decisions[call.newId], at)))
  {
    AggregateIsTransactional(w, found, call, at);
    if call.evidence in w.db.evidences && w.db.evidences[call.evidence].tenant in w.db.tenants {
      CommittedShape(w.db, found, call, at);
    }
  }

  /** A resolve commits only where there is no feedback yet, and otherwise leaves the rows alone. */
  lemma ResolveIsTransactional(w: World, req: Id, at: Time, fault: ResolveFault)
    requires req in w.pending
    ensures
      var db', p := CommitResolve(w, req, at, fault).db, w.pending[req];
      || db' == w.db
      || (p.decision in w.db.decisions && p.decision !in w.db.feedback && db' == ResolvedRows(w.db, p, at))
  {
  }

  /** What Redis and the issued ids may look like after an aggregate: at most one key is deleted or set. */
  ghost predicate KeyMoves(w: World, w': World, call: AggregateCall, at: Time)
    requires call.evidence in w.db.evidences && w.db.evidences[call.evidence].tenant in w.db.tenants
  {
    var e := w.db.evidences[call.evidence];
    var key, entry := KeyOfEvidence(e), Entry(call.newId, at + Seconds(w.db.tenants[e.tenant].windowSecs + 300));
    || (w'.index == w.index && (w'.issued == w.issued || w'.issued == w.issued + {call.newId}))
    || (w'.index == w.index - {key} && w'.issued == w.issued + {call.newId})
    || (w'.index == w.index[key := entry] && w'.issued == w.issued + {call.newId})
  }

  lemma FinishLeavesRedis(w: World, base: Database, did: Id, call: AggregateCall, t: Tenant, at: Time)
    requires did in base.decisions && call.evidence in base.evidences
    ensures
      var w' := Finish(w, base, did, call, t, at).0;
      w'.index == w.index && w'.issued == w.issued && w'.pending == w.pending && w'.now == w.now
  {
  }

  lemma PrepareMovesOneKey(w: World, found: Option<Id>, call: AggregateCall, at: Time)
    requires call.evidence in w.db.evidences && w.db.evidences[call.evidence].tenant in w.db.tenants
    ensures
      var p := Prepare(w, found, call, at);
      && p.world == w.(index := p.world.index, issued := p.world.issued)
      && KeyMoves(w, p.world, call, at)
      && (p.Ready? && p.decision !in w.db.decisions ==> p.world.issued == w.issued + {call.newId})
  {
    var e := w.db.evidences[call.evidence];
    var key, entry := KeyOfEvidence(e), Entry(call.newId, at + Seconds(w.db.tenants[e.tenant].windowSecs + 300));
    assert (w.index - {key})[key := entry] == w.index[key := entry];
  }

  /** What an aggregate does to Redis: nothing, a deleted key, or a key that names the new decision. */
  lemma {:induction false} AggregateMovesOneKey(w: World, found: Option<Id>, call: AggregateCall, at: Time)
    requires call.evidence in w.db.evidences && w.db.evidences[call.evidence].tenant in w.db.tenants
    ensures
      var (w', reply) := AggregateWith(w, found, call, at);
      && w'.pending == w.pending && w'.now == w.now
      && KeyMoves(w, w', call, at)
      && (reply.Aggregated? && reply.decision !in w.db.decisions ==> w'.issued == w.issued + {call.newId})
  {
    PrepareMovesOneKey(w, found, call, at);
    var p := Prepare(w, found, call, at);
    if call.fault != LookupFails && p.Ready? {
      FinishLeavesRedis(p.world, p.base, p.decision, call, w.db.tenants[w.db.evidences[call.evidence].tenant], at);
    }
  }

  /******* Each part keeps the invariant *******/

  lemma {:induction false} NoLinksOfAbsent(links: seq<Link>, evidences: map<Id, Evidence>, did: Id)
    requires forall l | l in links :: l.decision != did
    ensures LinkCount(links, did) == 0 && LinkedSeverity(links, evidences, did) == 0
  {
    if |links| > 0 {
      assert links[|links| - 1] in links;
      NoLinksOfAbsent(links[..|links| - 1], evidences, did);
    }
  }

  lemma {:induction false} SeverityIgnoresUnlinked(links: seq<Link>, evidences: map<Id, Evidence>, eid: Id,
      e: Evidence, did: Id)
    requires eid !in evidences && forall l | l in links :: l.evidence != eid
    ensures LinkedSeverity(links, evidences[eid := e], did) == LinkedSeverity(links, evidences, did)
  {
    if |links| > 0 {
      assert links[|links| - 1] in links;
      SeverityIgnoresUnlinked(links[..|links| - 1], evidences, eid, e, did);
    }
  }

  lemma CreatedKeepsRows(db: Database, id: Id, e: Evidence, t: Tenant, at: Time)
    requires RowsSound(db) && id !in db.decisions && e.tenant in db.tenants && db.tenants[e.tenant] == t
    requires 0 < t.windowSecs + 300
    ensures RowsSound(Created(db, id, e, t, at))
  {
    var db' := Created(db, id, e, t, at);
    assert forall l | l in db.links :: LinkSound(db, l);
    NoLinksOfAbsent(db.links, db.evidences, id);
    forall did | did in db'.decisions ensures Counted(db', did) {
      assert did == id || Counted(db, did);
    }
  }

  lemma LinkedKeepsRows(db: Database, did: Id, eid: Id, at: Time)
    requires RowsSound(db) && did in db.decisions && eid in db.evidences
    requires KeyOfEvidence(db.evidences[eid]) == KeyOfDecision(db.decisions[did])
    ensures RowsSound(Linked(db, did, eid, at))
    ensures Link(did, eid) in Linked(db, did, eid, at).links
  {
    if Link(did, eid) !in db.links {
      var db' := Linked(db, did, eid, at);
      assert db'.links[..|db'.links| - 1] == db.links;
      forall d | d in db'.decisions ensures Counted(db', d) {
        assert Counted(db, d);
      }
      forall l | l in db'.links ensures LinkSound(db', l) {
        assert l == Link(did, eid) || LinkSound(db, l);
      }
    }
  }

  lemma TransitionedKeepsRows(db: Database, did: Id, t: Tenant, at: Time)
    requires RowsSound(db) && did in db.decisions
    ensures RowsSound(Transitioned(db, did, t, at))
  {
    var db' := Transitioned(db, did, t, at);
    forall d | d in db'.decisions ensures Counted(db', d) {
      assert Counted(db, d);
    }
    forall l | l in db'.links ensures LinkSound(db', l) {
      assert LinkSound(db, l);
    }
  }

  lemma ResolvedKeepsRows(db: Database, p: PendingResolve, at: Time)
    requires RowsSound(db) && p.decision in db.decisions
    ensures RowsSound(ResolvedRows(db, p, at))
  {
    var db' := ResolvedRows(db, p, at);
    forall d | d in db'.decisions ensures Counted(db', d) {
      assert Counted(db, d);
    }
    forall l | l in db'.links ensures LinkSound(db', l) {
      assert LinkSound(db, l);
    }
  }

  lemma RecordKeepsRows(db: Database, eid: Id, e: Evidence)
    requires RowsSound(db) && eid !in db.evidences
    ensures RowsSound(db.(evidences := db.evidences[eid := e]))
  {
    var db' := db.(evidences := db.evidences[eid := e]);
    forall l | l in db.links ensures l.evidence != eid && LinkSound(db', l) {
      assert LinkSound(db, l);
    }
    forall d | d in db'.decisions ensures Counted(db', d) {
      assert Counted(db, d);
      SeverityIgnoresUnlinked(db.links, db.evidences, eid, e, d);
    }
  }

  /** A found id leads to a decision of the evidence's own key. */
  lemma FoundHasKey(w: World, call: AggregateCall, at: Time)
    requires IndexSound(w) && call.evidence in w.db.evidences
    ensures
      var target := Target(w.db, Found(w, call, at), w.db.evidences[call.evidence]);
      target.Some? ==> KeyOfDecision(w.db.decisions[target.value]) == KeyOfEvidence(w.db.evidences[call.evidence])
  {
  }

  lemma CommittedKeepsRows(db: Database, found: Option<Id>, call: AggregateCall, at: Time)
    requires RowsSound(db) && call.newId !in db.decisions
    requires call.evidence in db.evidences && db.evidences[call.evidence].tenant in db.tenants
    requires
      var e := db.evidences[call.evidence];
      var target := Target(db, found, e);
      if target.Some? then KeyOfDecision(db.decisions[target.value]) == KeyOfEvidence(e)
      else 0 < db.tenants[e.tenant].windowSecs + 300
    ensures RowsSound(CommittedRows(db, found, call, at))
  {
    var e := db.evidences[call.evidence];
    var t := db.tenants[e.tenant];
    var target := Target(db, found, e);
    if target.None? {
      CreatedKeepsRows(db, call.newId, e, t, at);
    }
    var base := if target.Some? then db else Created(db, call.newId, e, t, at);
    var did := if target.Some? then target.value else call.newId;
    LinkedKeepsRows(base, did, call.evidence, at);
    TransitionedKeepsRows(Linked(base, did, call.evidence, at), did, t, at);
  }

  lemma NextKeepsRows(w: World, ts: TimedStep)
    requires RowsSound(w.db) && IndexSound(w)
    ensures RowsSound(Next(w, ts).db)
  {
    if Enabled(w, ts) {
      match ts.step
      case AggregateStep(call) =>
        AggregateIsTransactional(w, Found(w, call, ts.at), call, ts.at);
        if AggregateWith(w, Found(w, call, ts.at), call, ts.at).1.Aggregated? {
          FoundHasKey(w, call, ts.at);
          CommittedKeepsRows(w.db, Found(w, call, ts.at), call, ts.at);
        }
      case CommitResolveStep(req, fault) =>
        if w.pending[req].decision in w.db.decisions {
          ResolvedKeepsRows(w.db, w.pending[req], ts.at);
        }
      case RecordEvidenceStep(id, e) =>
        RecordKeepsRows(w.db, id, e);
      case _ =>
    }
  }

  /** A decision keeps its key and its window for life, and configuration never changes. */
  lemma {:induction false} NextKeepsIdentity(w: World, ts: TimedStep)
    requires w.db.decisions.Keys <= w.issued
    ensures Next(w, ts).db.tenants == w.db.tenants
    ensures forall did | did in w.db.decisions ::
      did in Next(w, ts).db.decisions && SameIdentity(w.db.decisions[did], Next(w, ts).db.decisions[did])
  {
    if Enabled(w, ts) && ts.step.AggregateStep? {
      AggregateRows(w, Found(w, ts.step.call, ts.at), ts.step.call, ts.at);
    }
  }

  /** Moving one key keeps the index sound as long as the new id's decision, if there is one, has the key. */
  lemma KeyMoveKeepsIndex(w: World, w': World, call: AggregateCall, at: Time)
    requires IndexSound(w) && call.newId !in w.issued
    requires call.evidence in w.db.evidences && w.db.evidences[call.evidence].tenant in w.db.tenants
    requires KeyMoves(w, w', call, at) && w'.db.decisions.Keys <= w'.issued
    requires forall did | did in w.db.decisions ::
      did in w'.db.decisions && SameIdentity(w.db.decisions[did], w'.db.decisions[did])
    requires w'.db.decisions.Keys <= w.db.decisions.Keys + {call.newId}
    requires call.newId in w'.db.decisions ==>
      KeyOfDecision(w'.db.decisions[call.newId]) == KeyOfEvidence(w.db.evidences[call.evidence])
    ensures IndexSound(w')
  {
  }

  lemma {:induction false} AggregateKeepsIndex(w: World, found: Option<Id>, call: AggregateCall, at: Time)
    requires IndexSound(w) && call.newId !in w.issued
    ensures IndexSound(AggregateWith(w, found, call, at).0)
  {
    AggregateRows(w, found, call, at);
    AggregateIsTransactional(w, found, call, at);
    if call.evidence in w.db.evidences && w.db.evidences[call.evidence].tenant in w.db.tenants {
      AggregateMovesOneKey(w, found, call, at);
      KeyMoveKeepsIndex(w, AggregateWith(w, found, call, at).0, call, at);
    }
  }

  lemma {:induction false} NextKeepsIndex(w: World, ts: TimedStep)
    requires IndexSound(w)
    ensures IndexSound(Next(w, ts))
  {
    if Enabled(w, ts) && ts.step.AggregateStep? {
      AggregateKeepsIndex(w, Found(w, ts.step.call, ts.at), ts.step.call, ts.at);
    } else {
      NextKeepsIdentity(w, ts);
    }
  }

  lemma {:induction false} NextKeepsLinksWithin(w: World, ts: TimedStep)
    requires RowsSound(w.db) && IndexSound(w) && UsableWindows(w.db) && LinksWithinWindows(w.db)
    ensures LinksWithinWindows(Next(w, ts).db)
  {
    NextKeepsIdentity(w, ts);
    var db, db' := w.db, Next(w, ts).db;
    if Enabled(w, ts) && ts.step.AggregateStep? {
      var call := ts.step.call;
      var found := Found(w, call, ts.at);
      AggregateIsTransactional(w, found, call, ts.at);
      if call.evidence in db.evidences && db.evidences[call.evidence].tenant in db.tenants {
        CommittedShape(db, found, call, ts.at);
      }
    }
    forall l | l in db'.links && l.decision in db'.decisions && l.evidence in db'.evidences
      ensures db'.evidences[l.evidence].capturedAt <= db'.decisions[l.decision].windowEnd
    {
      if l in db.links {
        assert LinkSound(db, l);
      }
    }
  }

  /******* Over runs *******/

  /**
   Over every run of aggregates (whatever raises inside them), resolves, new evidence, expiring keys
   and lost keys: counters agree with links, links stay within their key, and every open key is
   absent, dangling, or names a decision of exactly that key.
   */
  lemma {:induction false} BooksAlwaysBalance(w: World, run: seq<TimedStep>)
    requires Initial(w)
    ensures RowsSound(After(w, run).db) && IndexSound(After(w, run))
  {
    if |run| > 0 {
      var before := After(w, run[..|run| - 1]);
      BooksAlwaysBalance(w, run[..|run| - 1]);
      NextKeepsRows(before, run[|run| - 1]);
      NextKeepsIndex(before, run[|run| - 1]);
    }
  }

  /** With usable windows, no run links evidence captured after its decision's window. */
  lemma {:induction false} LinksStayWithinWindows(w: World, run: seq<TimedStep>)
    requires Initial(w) && UsableWindows(w.db)
    ensures LinksWithinWindows(After(w, run).db) && After(w, run).db.tenants == w.db.tenants
  {
    if |run| > 0 {
      var before := After(w, run[..|run| - 1]);
      LinksStayWithinWindows(w, run[..|run| - 1]);
      BooksAlwaysBalance(w, run[..|run| - 1]);
      NextKeepsIdentity(before, run[|run| - 1]);
      NextKeepsLinksWithin(before, run[|run| - 1]);
    }
  }

  /** A negative window that can create decisions: the very first evidence lies outside its own window. */
  lemma NegativeWindowBreaksBound(w: World, tenant: Id) returns (run: seq<TimedStep>)
    requires Initial(w) && tenant in w.db.tenants && -300 < w.db.tenants[tenant].windowSecs < 0
    ensures !LinksWithinWindows(After(w, run).db)
  {
    var record := TimedStep(RecordEvidenceStep(0, Evidence(tenant, 0, None, 0, 1)), w.now + 1);
    var aggregate := TimedStep(AggregateStep(AggregateCall(0, 0, NoFault)), w.now + 2);
    run := [record, aggregate];
    assert run[..1] == [record] && run[..1][..0] == [];
    var w1 := Next(w, record);
    assert After(w, run[..1]) == w1 by {
      assert After(w, []) == w;
    }
    var w2 := Next(w1, aggregate);
    assert After(w, run) == w2;
    assert w2.db.links == [Link(0, 0)];
    assert Link(0, 0) in w2.db.links;
  }

  /** Linked evidence is within its window in every run if and only if every tenant's window is usable. */
  lemma LinksWithinWindowsIff(w: World)
    requires Initial(w)
    ensures (forall run :: LinksWithinWindows(After(w, run).db)) <==> UsableWindows(w.db)
  {
    if UsableWindows(w.db) {
      forall run ensures LinksWithinWindows(After(w, run).db) {
        LinksStayWithinWindows(w, run);
      }
    } else {
      var tenant :| tenant in w.db.tenants && -300 < w.db.tenants[tenant].windowSecs < 0;
      var run := NegativeWindowBreaksBound(w, tenant);
    }
  }
}
