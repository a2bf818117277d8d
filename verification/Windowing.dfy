/**
 What the open-decision index computes, stated without it: greedy windowing. The first evidence of a
 (tenant, camera, region) opens a window of the tenant's length, and evidence captured after the current
 window's end opens the next one. The windows of a key strictly increase in the order in which they open throughout a
 run if and only if no step splits one: creates a decision for evidence that an earlier window still holds. Then no
 covering of the capture times by intervals of that length needs fewer intervals than there are decisions, whatever the
 order of arrival; in order, the windows themselves are such a covering.

 This is proved for keys that expire and for keys that never do: the flag `expiring` says which.
 */
module Windowing {
  import opened Domain
  import opened Lifecycle
  import opened Bookkeeping
  import opened IndexRefinement

  /******* Runs with and without expiry *******/

  function FoundBy(w: World, call: AggregateCall, at: Time, expiring: bool): Option<Id> {
    if expiring then Found(w, call, at) else FoundForever(w, call)
  }

  function NextBy(w: World, ts: TimedStep, expiring: bool): World {
    if expiring then Next(w, ts) else NextForever(w, ts)
  }

  function AfterBy(w: World, run: seq<TimedStep>, expiring: bool): World {
    if |run| == 0 then w else NextBy(AfterBy(w, run[..|run| - 1], expiring), run[|run| - 1], expiring)
  }

  lemma {:induction false} AfterByIs(w: World, run: seq<TimedStep>)
    ensures AfterBy(w, run, true) == After(w, run) && AfterBy(w, run, false) == AfterForever(w, run)
  {
    if |run| > 0 {
      AfterByIs(w, run[..|run| - 1]);
    }
  }

  /** The aggregate commits a decision that it has created. */
  predicate Creates(w: World, ts: TimedStep, expiring: bool) {
    && Enabled(w, ts) && ts.step.AggregateStep?
    && var call := ts.step.call;
       && call.evidence in w.db.evidences
       && var found := FoundBy(w, call, ts.at, expiring);
          && AggregateWith(w, found, call, ts.at).1.Aggregated?
          && Target(w.db, found, w.db.evidences[call.evidence]).None?
  }

  /** Some decision of the key has a window that ends no earlier than the evidence was captured. */
  predicate StillHeld(db: Database, key: OpenKey, e: Evidence) {
    exists did | did in db.decisions ::
      KeyOfDecision(db.decisions[did]) == key && e.capturedAt <= db.decisions[did].windowEnd
  }

  /** The step creates a decision of the key although a window of the key still holds the evidence. */
  predicate SplitsWindow(w: World, ts: TimedStep, key: OpenKey, expiring: bool) {
    && Creates(w, ts, expiring)
    && var e := w.db.evidences[ts.step.call.evidence];
       KeyOfEvidence(e) == key && StillHeld(w.db, key, e)
  }

  ghost predicate NoSplitRun(w: World, run: seq<TimedStep>, key: OpenKey, expiring: bool) {
    |run| == 0
    || (NoSplitRun(w, run[..|run| - 1], key, expiring)
        && !SplitsWindow(AfterBy(w, run[..|run| - 1], expiring), run[|run| - 1], key, expiring))
  }

  /** The books of a run without expiry balance like any other's. */
  lemma NextKeepsBooks(w: World, ts: TimedStep, expiring: bool)
    requires RowsSound(w.db) && IndexSound(w)
    ensures RowsSound(NextBy(w, ts, expiring).db) && IndexSound(NextBy(w, ts, expiring))
    ensures NextBy(w, ts, expiring).db.tenants == w.db.tenants
  {
    if Enabled(w, ts) && ts.step.AggregateStep? && !expiring {
      var call, found := ts.step.call, FoundForever(w, ts.step.call);
      AggregateKeepsIndex(w, found, call, ts.at);
      AggregateIsTransactional(w, found, call, ts.at);
      if AggregateWith(w, found, call, ts.at).1.Aggregated? {
        CommittedKeepsRows(w.db, found, call, ts.at);
      }
      AggregateRows(w, found, call, ts.at);
    } else {
      NextKeepsRows(w, ts);
      NextKeepsIndex(w, ts);
      NextKeepsIdentity(w, ts);
    }
  }

  lemma PreparedIndex(w: World, found: Option<Id>, call: AggregateCall, at: Time)
    requires call.evidence in w.db.evidences && w.db.evidences[call.evidence].tenant in w.db.tenants
    ensures
      var e, p := w.db.evidences[call.evidence], Prepare(w, found, call, at);
      p.Ready? ==>
        p.world.index
        == if Target(w.db, found, e).Some? then w.index
           else w.index[KeyOfEvidence(e) := Entry(call.newId, at + Seconds(w.db.tenants[e.tenant].windowSecs + 300))]
  {
    var e := w.db.evidences[call.evidence];
    var key, entry := KeyOfEvidence(e), Entry(call.newId, at + Seconds(w.db.tenants[e.tenant].windowSecs + 300));
    assert (w.index - {key})[key := entry] == w.index[key := entry];
  }

  /** What a committed aggregate does to the index: nothing when it merges, the key's new entry when it creates. */
  lemma {:induction false} CommittedIndex(w: World, found: Option<Id>, call: AggregateCall, at: Time)
    requires AggregateWith(w, found, call, at).1.Aggregated?
    ensures
      && call.evidence in w.db.evidences
      && var e := w.db.evidences[call.evidence];
      && e.tenant in w.db.tenants
      && var w' := AggregateWith(w, found, call, at).0;
      if Target(w.db, found, e).Some? then w'.index == w.index
      else
        var expiresAt := at + Seconds(w.db.tenants[e.tenant].windowSecs + 300);
        w'.index == w.index[KeyOfEvidence(e) := Entry(call.newId, expiresAt)]
  {
    var e := w.db.evidences[call.evidence];
    PreparedIndex(w, found, call, at);
    var p := Prepare(w, found, call, at);
    FinishLeavesRedis(p.world, p.base, p.decision, call, w.db.tenants[e.tenant], at);
  }

  lemma {:induction false} BooksBalanceBy(w: World, run: seq<TimedStep>, expiring: bool)
    requires Initial(w)
    ensures
      var w' := AfterBy(w, run, expiring);
      RowsSound(w'.db) && IndexSound(w') && w'.db.tenants == w.db.tenants
  {
    if |run| > 0 {
      BooksBalanceBy(w, run[..|run| - 1], expiring);
      NextKeepsBooks(AfterBy(w, run[..|run| - 1], expiring), run[|run| - 1], expiring);
    }
  }

  /******* How a step moves rows *******/

  /** Rows that may have moved but kept identity, links and evidence that may have grown. */
  ghost predicate RowsGrown(db: Database, db': Database) {
    && (forall did | did in db.decisions :: did in db'.decisions && SameIdentity(db.decisions[did], db'.decisions[did]))
    && (forall e | e in db.evidences :: e in db'.evidences && db'.evidences[e] == db.evidences[e])
    && |db.links| <= |db'.links| && db'.links[..|db.links|] == db.links
  }

  /** The new decision that a creating step leaves behind, with its first link. */
  ghost predicate Adds(db: Database, db': Database, id: Id, eid: Id) {
    && RowsGrown(db, db') && db'.evidences == db.evidences && id !in db.decisions && eid in db.evidences
    && db'.decisions.Keys == db.decisions.Keys + {id} && db'.links == db.links + [Link(id, eid)]
    && KeyOfDecision(db'.decisions[id]) == KeyOfEvidence(db.evidences[eid])
    && db'.decisions[id].windowStart == db.evidences[eid].capturedAt
  }

  /** No decision is added, and links are to old decisions. */
  ghost predicate AddsNone(db: Database, db': Database) {
    && RowsGrown(db, db') && db'.decisions.Keys == db.decisions.Keys
    && (forall i | |db.links| <= i < |db'.links| :: db'.links[i].decision in db.decisions)
  }

  lemma NewLinkIsNew(db: Database, id: Id, eid: Id)
    requires LinksSound(db) && id !in db.decisions
    ensures Link(id, eid) !in db.links
  {
    forall l | l in db.links ensures l.decision != id {
      assert LinkSound(db, l);
    }
  }

  lemma {:induction false} AggregateAdds(w: World, found: Option<Id>, call: AggregateCall, at: Time)
    requires RowsSound(w.db) && IndexSound(w) && call.newId !in w.issued
    ensures
      var (w', reply) := AggregateWith(w, found, call, at);
      if reply.Aggregated? && Target(w.db, found, w.db.evidences[call.evidence]).None?
      then Adds(w.db, w'.db, call.newId, call.evidence)
      else AddsNone(w.db, w'.db)
  {
    AggregateIsTransactional(w, found, call, at);
    if AggregateWith(w, found, call, at).1.Aggregated? {
      CommittedShape(w.db, found, call, at);
      NewLinkIsNew(w.db, call.newId, call.evidence);
    }
  }

  /** No step but an aggregate creates decisions or links. */
  lemma OtherStepsGrow(w: World, ts: TimedStep)
    requires !ts.step.AggregateStep?
    ensures RowsGrown(w.db, Next(w, ts).db) && AddsNone(w.db, Next(w, ts).db)
    ensures !ts.step.LoseKeyStep? ==> Next(w, ts).index == w.index
  {
    if Enabled(w, ts) && ts.step.CommitResolveStep? {
      ResolveIsTransactional(w, ts.step.req, ts.at, ts.step.fault);
    }
  }

  lemma {:induction false} StepAdds(w: World, ts: TimedStep, expiring: bool)
    requires RowsSound(w.db) && IndexSound(w)
    ensures
      var db' := NextBy(w, ts, expiring).db;
      if Creates(w, ts, expiring) then Adds(w.db, db', ts.step.call.newId, ts.step.call.evidence)
      else AddsNone(w.db, db')
  {
    if !ts.step.AggregateStep? {
      OtherStepsGrow(w, ts);
    } else if Enabled(w, ts) {
      var call := ts.step.call;
      AggregateIsTransactional(w, FoundBy(w, call, ts.at, expiring), call, ts.at);
      AggregateAdds(w, FoundBy(w, call, ts.at, expiring), call, ts.at);
    }
  }

  /******* Opening *******/

  ghost predicate Before(db: Database, d1: Id, d2: Id)
    requires d1 in db.decisions && d2 in db.decisions
  {
    db.decisions[d1].windowEnd < db.decisions[d2].windowStart
  }

  /** The i-th link is the one that opened the decision's window. */
  ghost predicate Opens(db: Database, i: nat, did: Id)
    requires i < |db.links| && did in db.decisions
  {
    && db.links[i].decision == did && db.links[i].evidence in db.evidences
    && db.evidences[db.links[i].evidence].capturedAt == db.decisions[did].windowStart
    && (forall j | 0 <= j < i :: db.links[j].decision != did)
  }

  ghost predicate Opened(db: Database, did: Id)
    requires did in db.decisions
  {
    exists i | 0 <= i < |db.links| :: Opens(db, i, did)
  }

  ghost predicate AllOpened(db: Database) {
    forall did | did in db.decisions :: Opened(db, did)
  }

  lemma OpenedGrows(db: Database, db': Database, did: Id)
    requires RowsGrown(db, db') && did in db.decisions && Opened(db, did)
    ensures Opened(db', did)
  {
    var i :| 0 <= i < |db.links| && Opens(db, i, did);
    assert forall j | 0 <= j < |db.links| :: db'.links[j] == db.links[j];
    assert Opens(db', i, did);
  }

  /** The first link of a new decision is the evidence that opened it. */
  lemma NewDecisionIsOpened(db: Database, db': Database, id: Id, eid: Id)
    requires LinksSound(db) && id !in db.decisions && id in db'.decisions && eid in db.evidences
    requires db'.evidences == db.evidences && db'.links == db.links + [Link(id, eid)]
    requires db'.decisions[id].windowStart == db.evidences[eid].capturedAt
    ensures Opened(db', id)
  {
    forall j | 0 <= j < |db.links| ensures db.links[j].decision != id {
      assert LinkSound(db, db.links[j]);
    }
    assert Opens(db', |db.links|, id);
  }

  lemma AddsKeepsOpened(db: Database, db': Database, id: Id, eid: Id)
    requires LinksSound(db) && AllOpened(db) && Adds(db, db', id, eid)
    ensures AllOpened(db')
  {
    NewDecisionIsOpened(db, db', id, eid);
    forall did | did in db.decisions ensures Opened(db', did) {
      OpenedGrows(db, db', did);
    }
  }

  lemma AddsNoneKeepsOpened(db: Database, db': Database)
    requires AllOpened(db) && AddsNone(db, db')
    ensures AllOpened(db')
  {
    forall did | did in db'.decisions ensures Opened(db', did) {
      OpenedGrows(db, db', did);
    }
  }

  /** In every run each decision's window starts at the capture time of the evidence linked to it first. */
  lemma {:induction false} DecisionsAlwaysOpened(w: World, run: seq<TimedStep>, expiring: bool)
    requires Initial(w)
    ensures AllOpened(AfterBy(w, run, expiring).db)
  {
    if |run| > 0 {
      var front := run[..|run| - 1];
      var u, ts := AfterBy(w, front, expiring), run[|run| - 1];
      DecisionsAlwaysOpened(w, front, expiring);
      BooksBalanceBy(w, front, expiring);
      StepAdds(u, ts, expiring);
      if Creates(u, ts, expiring) {
        AddsKeepsOpened(u.db, NextBy(u, ts, expiring).db, ts.step.call.newId, ts.step.call.evidence);
      } else {
        AddsNoneKeepsOpened(u.db, NextBy(u, ts, expiring).db);
      }
    }
  }

  /******* Increasing windows *******/

  /** The i-th link is the first of its decision, one of the key. */
  ghost predicate Opening(db: Database, i: nat, key: OpenKey)
    requires i < |db.links|
  {
    var did := db.links[i].decision;
    && did in db.decisions && KeyOfDecision(db.decisions[did]) == key
    && forall j | 0 <= j < i :: db.links[j].decision != did
  }

  /** In the order in which they open, each window of the key ends before the next one starts. */
  ghost predicate Increasing(db: Database, key: OpenKey) {
    forall i, j | 0 <= i < j < |db.links| && Opening(db, i, key) && Opening(db, j, key) ::
      Before(db, db.links[i].decision, db.links[j].decision)
  }

  lemma OpeningGrows(db: Database, db': Database, key: OpenKey, i: nat)
    requires RowsGrown(db, db') && i < |db.links| && db.links[i].decision in db.decisions
    ensures Opening(db', i, key) <==> Opening(db, i, key)
  {
    assert forall j | 0 <= j < |db.links| :: db'.links[j] == db.links[j];
  }

  lemma LaterLinksOpenNothing(db: Database, db': Database, key: OpenKey, i: nat)
    requires AllOpened(db) && AddsNone(db, db') && |db.links| <= i < |db'.links|
    ensures !Opening(db', i, key)
  {
    var did := db'.links[i].decision;
    assert Opened(db, did);
    var j :| 0 <= j < |db.links| && Opens(db, j, did);
    assert db'.links[j] == db.links[j];
  }

  lemma {:induction false} AddsNoneKeepsIncreasing(db: Database, db': Database, key: OpenKey)
    requires LinksSound(db) && AllOpened(db) && Increasing(db, key) && AddsNone(db, db')
    ensures Increasing(db', key)
  {
    forall i, j | 0 <= i < j < |db'.links| && Opening(db', i, key) && Opening(db', j, key)
      ensures Before(db', db'.links[i].decision, db'.links[j].decision)
    {
      if j < |db.links| {
        LinkedDecision(db, i);
        LinkedDecision(db, j);
        OpeningGrows(db, db', key, i);
        OpeningGrows(db, db', key, j);
        assert db'.links[i] == db.links[i] && db'.links[j] == db.links[j];
      } else {
        LaterLinksOpenNothing(db, db', key, j);
      }
    }
  }

  lemma LinkedDecision(db: Database, i: nat)
    requires LinksSound(db) && i < |db.links|
    ensures db.links[i].decision in db.decisions
  {
    assert LinkSound(db, db.links[i]);
  }

  lemma {:induction false} AddsKeepsIncreasing(db: Database, db': Database, key: OpenKey, id: Id, eid: Id)
    requires LinksSound(db) && AllOpened(db) && Increasing(db, key) && Adds(db, db', id, eid)
    requires KeyOfEvidence(db.evidences[eid]) == key ==> !StillHeld(db, key, db.evidences[eid])
    ensures Increasing(db', key)
  {
    forall i, j | 0 <= i < j < |db'.links| && Opening(db', i, key) && Opening(db', j, key)
      ensures Before(db', db'.links[i].decision, db'.links[j].decision)
    {
      LinkedDecision(db, i);
      OpeningGrows(db, db', key, i);
      assert db'.links[i] == db.links[i];
      if j < |db.links| {
        LinkedDecision(db, j);
        OpeningGrows(db, db', key, j);
        assert db'.links[j] == db.links[j];
      } else {
        assert db'.links[j].decision == id;
        assert KeyOfDecision(db.decisions[db.links[i].decision]) == key;
      }
    }
  }

  /** A decision created while a window of the key still holds the evidence: that window does not end before it. */
  lemma {:induction false} SplitBreaksIncreasing(db: Database, db': Database, key: OpenKey, id: Id, eid: Id)
    requires LinksSound(db) && AllOpened(db) && Adds(db, db', id, eid)
    requires KeyOfEvidence(db.evidences[eid]) == key && StillHeld(db, key, db.evidences[eid])
    ensures !Increasing(db', key)
  {
    var did :| did in db.decisions && KeyOfDecision(db.decisions[did]) == key
               && db.evidences[eid].capturedAt <= db.decisions[did].windowEnd;
    assert Opened(db, did);
    var i :| 0 <= i < |db.links| && Opens(db, i, did);
    var n := |db.links|;
    OpeningGrows(db, db', key, i);
    assert db'.links[i] == db.links[i] && db'.links[n].decision == id;
    forall j | 0 <= j < n ensures db'.links[j].decision != id {
      LinkedDecision(db, j);
      assert db'.links[j] == db.links[j];
    }
    assert Opening(db', i, key) && Opening(db', n, key);
    assert !Before(db', did, id);
  }

  lemma {:induction false} NextKeepsIncreasingIff(w: World, ts: TimedStep, key: OpenKey, expiring: bool)
    requires RowsSound(w.db) && IndexSound(w) && AllOpened(w.db) && Increasing(w.db, key)
    ensures Increasing(NextBy(w, ts, expiring).db, key) <==> !SplitsWindow(w, ts, key, expiring)
  {
    var db' := NextBy(w, ts, expiring).db;
    StepAdds(w, ts, expiring);
    if SplitsWindow(w, ts, key, expiring) {
      SplitBreaksIncreasing(w.db, db', key, ts.step.call.newId, ts.step.call.evidence);
    } else if Creates(w, ts, expiring) {
      AddsKeepsIncreasing(w.db, db', key, ts.step.call.newId, ts.step.call.evidence);
    } else {
      AddsNoneKeepsIncreasing(w.db, db', key);
    }
  }

  ghost predicate IncreasingThroughout(w: World, run: seq<TimedStep>, key: OpenKey, expiring: bool) {
    && Increasing(AfterBy(w, run, expiring).db, key)
    && (|run| == 0 || IncreasingThroughout(w, run[..|run| - 1], key, expiring))
  }

  /**
   Whatever keys are lost, lapse or dangle, whatever calls fail, and whatever the sign of the window: the windows of a
   key strictly increase in the order in which they open throughout a run if and only if no step of the run splits one.
   */
  lemma {:induction false} WindowsIncreaseIffNoSplit(w: World, run: seq<TimedStep>, key: OpenKey, expiring: bool)
    requires Initial(w)
    ensures IncreasingThroughout(w, run, key, expiring) <==> NoSplitRun(w, run, key, expiring)
  {
    if |run| > 0 {
      var front := run[..|run| - 1];
      WindowsIncreaseIffNoSplit(w, front, key, expiring);
      if IncreasingThroughout(w, front, key, expiring) {
        BooksBalanceBy(w, front, expiring);
        DecisionsAlwaysOpened(w, front, expiring);
        NextKeepsIncreasingIff(AfterBy(w, front, expiring), run[|run| - 1], key, expiring);
      }
    }
  }

  /** Evidence captured at the end of an open window, aggregated after the key of the window is gone. */
  lemma {:induction false} LostKeySplits(w: World, first: Evidence, ts: TimedStep)
    requires w.now < ts.at && 1 !in w.issued && KeyOfEvidence(first) !in w.index && SetsKeys(w, first.tenant)
    requires 0 in w.db.decisions && KeyOfDecision(w.db.decisions[0]) == KeyOfEvidence(first) && 1 in w.db.evidences
    requires
      var last := w.db.evidences[1];
      KeyOfEvidence(last) == KeyOfEvidence(first) && last.capturedAt <= w.db.decisions[0].windowEnd
    requires ts.step == AggregateStep(AggregateCall(1, 1, NoFault))
    ensures SplitsWindow(w, ts, KeyOfEvidence(first), true)
  {
  }

  /** A key that is lost while its window is open: the next evidence of the window splits it. */
  lemma {:induction false} LostKeySplitsWindow(w: World, tenant: Id) returns (run: seq<TimedStep>)
    requires Initial(w) && SetsKeys(w, tenant)
    ensures !NoSplitRun(w, run, OpenKey(tenant, 0, None), true)
  {
    var first, key := FirstOfWindow(w, tenant, 0), OpenKey(tenant, 0, None);
    var front := WindowOpened(w, tenant, 0);
    var lose := TimedStep(LoseKeyStep(key), w.now + 4);
    var ts := TimedStep(AggregateStep(AggregateCall(1, 1, NoFault)), w.now + 5);
    run := front + [lose] + [ts];
    assert (front + [lose])[..|front|] == front && run[..|run| - 1] == front + [lose];
    BooksAlwaysBalance(w, front);
    assert key in After(w, front).index;
    AfterByIs(w, front + [lose]);
    LostKeySplits(After(w, front + [lose]), first, ts);
  }

  /** Increasing windows are pairwise disjoint. */
  lemma IncreasingIsDisjoint(db: Database, key: OpenKey, d1: Id, d2: Id)
    requires AllOpened(db) && Increasing(db, key) && d1 in db.decisions && d2 in db.decisions && d1 != d2
    requires KeyOfDecision(db.decisions[d1]) == key && KeyOfDecision(db.decisions[d2]) == key
    ensures Before(db, d1, d2) || Before(db, d2, d1)
  {
    assert Opened(db, d1) && Opened(db, d2);
    var i :| 0 <= i < |db.links| && Opens(db, i, d1);
    var j :| 0 <= j < |db.links| && Opens(db, j, d2);
    assert Opening(db, i, key) && Opening(db, j, key);
  }

  /******* Optimality *******/

  /** The decisions of a key. */
  function DecisionsOf(db: Database, key: OpenKey): set<Id> {
    set did | did in db.decisions && KeyOfDecision(db.decisions[did]) == key
  }

  ghost predicate ArrivedFor(db: Database, l: Link, key: OpenKey) {
    l in db.links && l.evidence in db.evidences && KeyOfEvidence(db.evidences[l.evidence]) == key
  }

  /** Intervals of the given length from these starts cover the capture times of all linked evidence of the key. */
  ghost predicate Covers(db: Database, key: OpenKey, starts: set<Time>, span: Time) {
    forall l | ArrivedFor(db, l, key) ::
      exists s | s in starts :: s <= db.evidences[l.evidence].capturedAt <= s + span
  }

  /** Linked evidence of the key arrived in the order of its capture. */
  ghost predicate InOrder(db: Database, key: OpenKey) {
    forall i, j | 0 <= i < j < |db.links| && ArrivedFor(db, db.links[i], key) && ArrivedFor(db, db.links[j], key) ::
      db.evidences[db.links[i].evidence].capturedAt <= db.evidences[db.links[j].evidence].capturedAt
  }

  function WindowStarts(db: Database, key: OpenKey): set<Time> {
    set did | did in DecisionsOf(db, key) :: db.decisions[did].windowStart
  }

  /** A function that is injective on a set into another: the set is no larger. */
  lemma {:induction false} InjectionBound(xs: set<Id>, ys: set<Time>, f: map<Id, Time>)
    requires xs <= f.Keys && (forall x | x in xs :: f[x] in ys)
    requires forall x, x' | x in xs && x' in xs && x != x' :: f[x] != f[x']
    ensures |xs| <= |ys|
    decreases |xs|
  {
    if xs != {} {
      var x :| x in xs;
      assert |xs - {x}| == |xs| - 1 && |ys - {f[x]}| == |ys| - 1;
      InjectionBound(xs - {x}, ys - {f[x]}, f);
    }
  }

  /** The window start of a decision is the capture time of evidence of its key. */
  lemma StartIsCovered(db: Database, did: Id, key: OpenKey, starts: set<Time>, span: Time) returns (s: Time)
    requires did in DecisionsOf(db, key) && Opened(db, did) && RowsSound(db) && Covers(db, key, starts, span)
    ensures s in starts && s <= db.decisions[did].windowStart <= s + span
  {
    var i :| 0 <= i < |db.links| && Opens(db, i, did);
    assert LinkSound(db, db.links[i]);
    assert ArrivedFor(db, db.links[i], key);
    s :| s in starts && s <= db.evidences[db.links[i].evidence].capturedAt <= s + span;
  }

  /** No covering is smaller than the set of decisions, in whatever order the evidence arrived. */
  lemma NoSmallerCovering(db: Database, key: OpenKey, starts: set<Time>)
    requires RowsSound(db) && AllOpened(db) && Increasing(db, key) && key.tenant in db.tenants
    requires Covers(db, key, starts, Seconds(db.tenants[key.tenant].windowSecs))
    ensures |DecisionsOf(db, key)| <= |starts|
  {
    var span := Seconds(db.tenants[key.tenant].windowSecs);
    var ds := DecisionsOf(db, key);
    forall did | did in ds ensures exists s :: s in starts && s <= db.decisions[did].windowStart <= s + span {
      assert Opened(db, did);
      var s := StartIsCovered(db, did, key, starts, span);
    }
    var f := map did | did in ds :: PickStart(starts, db.decisions[did].windowStart, span);
    forall d1, d2 | d1 in ds && d2 in ds && d1 != d2 ensures f[d1] != f[d2] {
      IncreasingIsDisjoint(db, key, d1, d2);
    }
    InjectionBound(ds, starts, f);
  }

  ghost function PickStart(starts: set<Time>, t: Time, span: Time): (s: Time)
    requires exists s :: s in starts && s <= t <= s + span
    ensures s in starts && s <= t <= s + span
  {
    var s :| s in starts && s <= t <= s + span;
    s
  }

  /** Arriving in order, evidence is captured no earlier than its decision's window starts. */
  lemma InOrderAfterStart(db: Database, key: OpenKey, l: Link)
    requires RowsSound(db) && InOrder(db, key) && ArrivedFor(db, l, key)
    requires l.decision in db.decisions && Opened(db, l.decision)
    requires KeyOfDecision(db.decisions[l.decision]) == key
    ensures db.decisions[l.decision].windowStart <= db.evidences[l.evidence].capturedAt
  {
    var i :| 0 <= i < |db.links| && Opens(db, i, l.decision);
    var j :| 0 <= j < |db.links| && db.links[j] == l;
    assert LinkSound(db, db.links[i]);
    assert ArrivedFor(db, db.links[i], key);
    assert i <= j;
  }

  /** The tenant's window is not negative, or too short to create decisions at all. */
  predicate UsableWindow(db: Database, tenant: Id) {
    tenant in db.tenants ==> 0 <= db.tenants[tenant].windowSecs || db.tenants[tenant].windowSecs + 300 <= 0
  }

  /** No evidence linked to a decision of the tenant was captured after the decision's window. */
  ghost predicate TenantWithinWindows(db: Database, tenant: Id) {
    forall l | l in db.links && l.decision in db.decisions && l.evidence in db.evidences ::
      db.decisions[l.decision].tenant == tenant ==>
        db.evidences[l.evidence].capturedAt <= db.decisions[l.decision].windowEnd
  }

  lemma {:induction false} AggregateStaysWithin(w: World, found: Option<Id>, call: AggregateCall, at: Time, tenant: Id)
    requires RowsSound(w.db) && UsableWindow(w.db, tenant) && TenantWithinWindows(w.db, tenant)
    requires call.newId !in w.db.decisions
    ensures TenantWithinWindows(AggregateWith(w, found, call, at).0.db, tenant)
  {
    var db, db' := w.db, AggregateWith(w, found, call, at).0.db;
    AggregateIsTransactional(w, found, call, at);
    if AggregateWith(w, found, call, at).1.Aggregated? {
      CommittedShape(db, found, call, at);
      forall l | l in db'.links && l.decision in db'.decisions && l.evidence in db'.evidences
                 && db'.decisions[l.decision].tenant == tenant
        ensures db'.evidences[l.evidence].capturedAt <= db'.decisions[l.decision].windowEnd
      {
        if l in db.links {
          assert LinkSound(db, l);
        }
      }
    }
  }

  lemma OtherStepsStayWithin(w: World, ts: TimedStep, tenant: Id)
    requires RowsSound(w.db) && TenantWithinWindows(w.db, tenant) && !ts.step.AggregateStep?
    ensures TenantWithinWindows(Next(w, ts).db, tenant)
  {
    var db, db' := w.db, Next(w, ts).db;
    OtherStepsGrow(w, ts);
    forall l | l in db'.links && l.decision in db'.decisions && l.evidence in db'.evidences
               && db'.decisions[l.decision].tenant == tenant
      ensures db'.evidences[l.evidence].capturedAt <= db'.decisions[l.decision].windowEnd
    {
      assert db'.links == db.links && LinkSound(db, l);
    }
  }

  lemma {:induction false} StaysWithinWindows(w: World, run: seq<TimedStep>, tenant: Id, expiring: bool)
    requires Initial(w) && UsableWindow(w.db, tenant)
    ensures TenantWithinWindows(AfterBy(w, run, expiring).db, tenant)
  {
    if |run| > 0 {
      var front := run[..|run| - 1];
      var before, ts := AfterBy(w, front, expiring), run[|run| - 1];
      StaysWithinWindows(w, front, tenant, expiring);
      BooksBalanceBy(w, front, expiring);
      if !ts.step.AggregateStep? {
        OtherStepsStayWithin(before, ts, tenant);
      } else if Enabled(before, ts) {
        AggregateStaysWithin(before, FoundBy(before, ts.step.call, ts.at, expiring), ts.step.call, ts.at, tenant);
      }
    }
  }

  /** Arriving in order, all evidence lies within the window of its decision. */
  lemma InOrderWindowsCover(db: Database, key: OpenKey)
    requires RowsSound(db) && AllOpened(db) && TenantWithinWindows(db, key.tenant) && InOrder(db, key)
    requires key.tenant in db.tenants
    ensures Covers(db, key, WindowStarts(db, key), Seconds(db.tenants[key.tenant].windowSecs))
  {
    forall l | ArrivedFor(db, l, key)
      ensures exists s | s in WindowStarts(db, key) ::
        s <= db.evidences[l.evidence].capturedAt <= s + Seconds(db.tenants[key.tenant].windowSecs)
    {
      assert LinkSound(db, l);
      assert l.decision in DecisionsOf(db, key) && Opened(db, l.decision);
      InOrderAfterStart(db, key, l);
      assert db.decisions[l.decision].windowStart in WindowStarts(db, key);
    }
  }

  lemma DisjointStarts(db: Database, key: OpenKey, d1: Id, d2: Id)
    requires WindowsSound(db) && AllOpened(db) && Increasing(db, key) && UsableWindow(db, key.tenant)
    requires d1 in DecisionsOf(db, key) && d2 in DecisionsOf(db, key) && d1 != d2
    ensures db.decisions[d1].windowStart != db.decisions[d2].windowStart
  {
    IncreasingIsDisjoint(db, key, d1, d2);
    assert db.decisions[d1].windowStart <= db.decisions[d1].windowEnd;
    assert db.decisions[d2].windowStart <= db.decisions[d2].windowEnd;
  }

  /** One start per decision. */
  lemma StartsAreDistinct(db: Database, key: OpenKey)
    requires WindowsSound(db) && AllOpened(db) && Increasing(db, key) && UsableWindow(db, key.tenant)
    ensures |WindowStarts(db, key)| == |DecisionsOf(db, key)|
  {
    var ds := DecisionsOf(db, key);
    var f := map did | did in ds :: db.decisions[did].windowStart;
    forall d1, d2 | d1 in ds && d2 in ds && d1 != d2 ensures f[d1] != f[d2] {
      DisjointStarts(db, key, d1, d2);
    }
    ImageSize(ds, f);
    StartsAreImage(db, key, f);
  }

  lemma StartsAreImage(db: Database, key: OpenKey, f: map<Id, Time>)
    requires f.Keys == DecisionsOf(db, key)
    requires forall did | did in f :: f[did] == db.decisions[did].windowStart
    ensures WindowStarts(db, key) == set did | did in DecisionsOf(db, key) :: f[did]
  {
  }

  lemma {:induction false} ImageSize(xs: set<Id>, f: map<Id, Time>)
    requires xs <= f.Keys
    requires forall x, x' | x in xs && x' in xs && x != x' :: f[x] != f[x']
    ensures |set x | x in xs :: f[x]| == |xs|
    decreases |xs|
  {
    if xs != {} {
      var x :| x in xs;
      ImageSize(xs - {x}, f);
      assert (set y | y in xs :: f[y]) == (set y | y in xs - {x} :: f[y]) + {f[x]};
    } else {
      assert (set y | y in xs :: f[y]) == {};
    }
  }

  /**
   Greedy windowing is optimal, with and without expiry. After a run that splits no window of the key, its decisions
   have pairwise disjoint windows and are no more than the intervals of any covering of the capture times; if the
   evidence arrived in order, and the tenant's window is not negative, their windows are a covering, so their number is
   the minimum.
   */
  lemma {:induction false} GreedyWindowingIsOptimal(w: World, run: seq<TimedStep>, key: OpenKey, starts: set<Time>,
                                                    expiring: bool)
    requires Initial(w) && NoSplitRun(w, run, key, expiring) && key.tenant in w.db.tenants
    ensures
      var db, span := AfterBy(w, run, expiring).db, Seconds(w.db.tenants[key.tenant].windowSecs);
      && (forall d1, d2 | d1 in DecisionsOf(db, key) && d2 in DecisionsOf(db, key) && d1 != d2 ::
            Before(db, d1, d2) || Before(db, d2, d1))
      && (Covers(db, key, starts, span) ==> |DecisionsOf(db, key)| <= |starts|)
      && (InOrder(db, key) && UsableWindow(w.db, key.tenant) ==>
            && Covers(db, key, WindowStarts(db, key), span)
            && |WindowStarts(db, key)| == |DecisionsOf(db, key)|)
  {
    var db := AfterBy(w, run, expiring).db;
    BooksBalanceBy(w, run, expiring);
    DecisionsAlwaysOpened(w, run, expiring);
    WindowsIncreaseIffNoSplit(w, run, key, expiring);
    forall d1, d2 | d1 in DecisionsOf(db, key) && d2 in DecisionsOf(db, key) && d1 != d2
      ensures Before(db, d1, d2) || Before(db, d2, d1)
    {
      IncreasingIsDisjoint(db, key, d1, d2);
    }
    if Covers(db, key, starts, Seconds(w.db.tenants[key.tenant].windowSecs)) {
      NoSmallerCovering(db, key, starts);
    }
    if InOrder(db, key) && UsableWindow(w.db, key.tenant) {
      StaysWithinWindows(w, run, key.tenant, expiring);
      InOrderWindowsCover(db, key);
      StartsAreDistinct(db, key);
    }
  }

  /******* Runs that keep their open keys split nothing *******/

  /** The key names a decision that is in the database. */
  predicate NamesDecision(w: World, key: OpenKey) {
    key in w.index && w.index[key].decision in w.db.decisions
  }

  /**
   The step leaves no key without its decision: what named one still names one, the same or one that it has committed. A
   create that fails after its SET is such a step where the key was absent or dangling.
   */
  predicate LosesNoKey(w: World, ts: TimedStep, key: OpenKey, expiring: bool) {
    NamesDecision(w, key) ==> NamesDecision(NextBy(w, ts, expiring), key)
  }

  predicate MeetsLapsedKeyOf(w: World, ts: TimedStep, key: OpenKey) {
    MeetsLapsedKey(w, ts) && KeyOfEvidence(w.db.evidences[ts.step.call.evidence]) == key
  }

  /** No step of the run leaves the key without its decision or, if keys expire, comes upon it lapsed too soon. */
  ghost predicate KeepsKeyRun(w: World, run: seq<TimedStep>, key: OpenKey, expiring: bool) {
    |run| == 0
    || var u, ts := AfterBy(w, run[..|run| - 1], expiring), run[|run| - 1];
       && KeepsKeyRun(w, run[..|run| - 1], key, expiring)
       && LosesNoKey(u, ts, key, expiring) && (expiring ==> !MeetsLapsedKeyOf(u, ts, key))
  }

  /** The open key names the latest of the key's decisions, if there is one. */
  ghost predicate OpenIsLatest(w: World, key: OpenKey) {
    forall did | did in w.db.decisions && KeyOfDecision(w.db.decisions[did]) == key ::
      NamesDecision(w, key) && (did == w.index[key].decision || Before(w.db, did, w.index[key].decision))
  }

  /** A decision that the index names is only ever replaced by one that has just been committed. */
  lemma {:induction false} StepMovesName(w: World, ts: TimedStep, key: OpenKey, expiring: bool)
    requires RowsSound(w.db) && IndexSound(w) && NamesDecision(NextBy(w, ts, expiring), key)
    ensures
      var w' := NextBy(w, ts, expiring);
      if Creates(w, ts, expiring) && KeyOfEvidence(w.db.evidences[ts.step.call.evidence]) == key
      then w'.index[key].decision == ts.step.call.newId
      else NamesDecision(w, key) && w'.index[key].decision == w.index[key].decision
  {
    if Enabled(w, ts) && ts.step.AggregateStep? {
      var call := ts.step.call;
      var found := FoundBy(w, call, ts.at, expiring);
      AggregateIsTransactional(w, found, call, ts.at);
      AggregateAdds(w, found, call, ts.at);
      if AggregateWith(w, found, call, ts.at).1.Aggregated? {
        CommittedIndex(w, found, call, ts.at);
      } else if call.evidence in w.db.evidences && w.db.evidences[call.evidence].tenant in w.db.tenants {
        AggregateMovesOneKey(w, found, call, ts.at);
      }
    } else if !ts.step.AggregateStep? {
      OtherStepsGrow(w, ts);
    }
  }

  lemma {:induction false} NextKeepsLatest(w: World, ts: TimedStep, key: OpenKey, expiring: bool)
    requires RowsSound(w.db) && IndexSound(w) && OpenIsLatest(w, key)
    requires LosesNoKey(w, ts, key, expiring) && !SplitsWindow(w, ts, key, expiring)
    ensures OpenIsLatest(NextBy(w, ts, expiring), key)
  {
    var w' := NextBy(w, ts, expiring);
    StepAdds(w, ts, expiring);
    if Creates(w, ts, expiring) && KeyOfEvidence(w.db.evidences[ts.step.call.evidence]) == key {
      CreatedIsNamed(w, ts, key, expiring);
    }
    forall did | did in w'.db.decisions && KeyOfDecision(w'.db.decisions[did]) == key
      ensures NamesDecision(w', key) && (did == w'.index[key].decision || Before(w'.db, did, w'.index[key].decision))
    {
      if did in w.db.decisions {
        assert KeyOfDecision(w.db.decisions[did]) == key;
      }
      StepMovesName(w, ts, key, expiring);
    }
  }

  lemma CreatedIsNamed(w: World, ts: TimedStep, key: OpenKey, expiring: bool)
    requires RowsSound(w.db) && IndexSound(w)
    requires Creates(w, ts, expiring) && KeyOfEvidence(w.db.evidences[ts.step.call.evidence]) == key
    ensures NamesDecision(NextBy(w, ts, expiring), key)
  {
    var call := ts.step.call;
    StepAdds(w, ts, expiring);
    CommittedIndex(w, FoundBy(w, call, ts.at, expiring), call, ts.at);
  }

  /** While the open key names the latest decision, evidence that a window still holds goes to that decision. */
  lemma {:induction false} LatestSplitsNothing(w: World, ts: TimedStep, key: OpenKey, expiring: bool)
    requires RowsSound(w.db) && IndexSound(w) && UsableWindow(w.db, key.tenant) && OpenIsLatest(w, key)
    requires expiring ==> !MeetsLapsedKeyOf(w, ts, key)
    ensures !SplitsWindow(w, ts, key, expiring)
  {
    if Creates(w, ts, expiring) {
      var call, e := ts.step.call, w.db.evidences[ts.step.call.evidence];
      var found := FoundBy(w, call, ts.at, expiring);
      AggregateIsTransactional(w, found, call, ts.at);
      SameTargetIff(w, call, ts.at);
      forall did | KeyOfEvidence(e) == key && did in w.db.decisions && KeyOfDecision(w.db.decisions[did]) == key
        ensures w.db.decisions[did].windowEnd < e.capturedAt
      {
        var open := w.index[key].decision;
        assert KeyOfDecision(w.db.decisions[open]) == key;
        assert Target(w.db, FoundForever(w, call), e).None?;
        assert w.db.decisions[open].windowEnd < e.capturedAt;
        assert w.db.decisions[open].windowStart <= w.db.decisions[open].windowEnd;
      }
    }
  }

  /** A run that keeps the key splits none of its windows, and the key names the latest decision throughout. */
  lemma {:induction false} KeptKeySplitsNothing(w: World, run: seq<TimedStep>, key: OpenKey, expiring: bool)
    requires Initial(w) && UsableWindow(w.db, key.tenant) && KeepsKeyRun(w, run, key, expiring)
    ensures NoSplitRun(w, run, key, expiring) && OpenIsLatest(AfterBy(w, run, expiring), key)
  {
    if |run| > 0 {
      var front := run[..|run| - 1];
      KeptKeySplitsNothing(w, front, key, expiring);
      BooksBalanceBy(w, front, expiring);
      LatestSplitsNothing(AfterBy(w, front, expiring), run[|run| - 1], key, expiring);
      NextKeepsLatest(AfterBy(w, front, expiring), run[|run| - 1], key, expiring);
    }
  }

  ghost predicate LosesNoKeyRun(w: World, run: seq<TimedStep>, key: OpenKey) {
    |run| == 0
    || (LosesNoKeyRun(w, run[..|run| - 1], key) && LosesNoKey(After(w, run[..|run| - 1]), run[|run| - 1], key, true))
  }

  /** In particular a run as it happens that is on time and leaves no key without its decision. */
  lemma {:induction false} OnTimeRunKeepsKey(w: World, run: seq<TimedStep>, key: OpenKey)
    requires LosesNoKeyRun(w, run, key) && OnTimeRun(w, run)
    ensures KeepsKeyRun(w, run, key, true)
  {
    if |run| > 0 {
      OnTimeRunKeepsKey(w, run[..|run| - 1], key);
      AfterByIs(w, run[..|run| - 1]);
    }
  }
}
