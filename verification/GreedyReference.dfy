/**
 The reference that the open-decision index implements: a function of the capture times alone says which
 evidence opens a window and which window each evidence falls into, and the links and decisions of a key are what it
 says throughout a run if and only if no step of the run splits a window of the key. Decisions of other keys, resolves,
 aborted aggregates and lost keys in between make no difference.
 */
module GreedyReference {
  import opened Domain
  import opened Lifecycle
  import opened Bookkeeping
  import opened IndexRefinement
  import opened Windowing

  /**
   For each arrival the index of the arrival that opened its window: its predecessor's window if it was
   captured by the window's end, a window of its own otherwise.
   */
  function Openers(times: seq<Time>, span: Time): (openers: seq<nat>)
    ensures |openers| == |times|
    ensures forall i | 0 <= i < |openers| :: openers[i] <= i
  {
    if |times| == 0 then []
    else
      var n := |times| - 1;
      var before := Openers(times[..n], span);
      if n > 0 && times[n] <= times[before[n - 1]] + span then before + [before[n - 1]] else before + [n]
  }

  /** The links of a key, in order of arrival. */
  function Arrivals(links: seq<Link>, evidences: map<Id, Evidence>, key: OpenKey): seq<Link> {
    if |links| == 0 then []
    else
      var l := links[|links| - 1];
      var before := Arrivals(links[..|links| - 1], evidences, key);
      if l.evidence in evidences && KeyOfEvidence(evidences[l.evidence]) == key then before + [l] else before
  }

  function CaptureTime(evidences: map<Id, Evidence>, l: Link): Time {
    if l.evidence in evidences then evidences[l.evidence].capturedAt else 0
  }

  function Times(arrivals: seq<Link>, evidences: map<Id, Evidence>): (ts: seq<Time>)
    ensures |ts| == |arrivals|
  {
    seq(|arrivals|, i requires 0 <= i < |arrivals| => CaptureTime(evidences, arrivals[i]))
  }

  /**
   The i-th arrival is where the reference puts it: with its opener, in a window that starts at the opener's
   capture.
   */
  ghost predicate Placed(db: Database, arrivals: seq<Link>, openers: seq<nat>, i: nat)
    requires i < |arrivals| == |openers| && openers[i] <= i
  {
    var did := arrivals[i].decision;
    && did in db.decisions
    && did == arrivals[openers[i]].decision
    && db.decisions[did].windowStart == CaptureTime(db.evidences, arrivals[openers[i]])
  }

  /** An arrival that opens a window starts a decision that no earlier arrival has. */
  ghost predicate Fresh(arrivals: seq<Link>, openers: seq<nat>, i: nat)
    requires i < |arrivals| == |openers|
  {
    openers[i] == i ==> forall j | 0 <= j < i :: arrivals[j].decision != arrivals[i].decision
  }

  /** The links and decisions of one stream are what the reference says. */
  ghost predicate FollowsReference(db: Database, key: OpenKey)
    requires key.tenant in db.tenants
  {
    var arrivals := Arrivals(db.links, db.evidences, key);
    var openers := Openers(Times(arrivals, db.evidences), Seconds(db.tenants[key.tenant].windowSecs));
    forall i | 0 <= i < |arrivals| :: Placed(db, arrivals, openers, i) && Fresh(arrivals, openers, i)
  }

  /** The last arrival went to the latest decision of its key. */
  ghost predicate LastIsLatest(db: Database, key: OpenKey) {
    var arrivals := Arrivals(db.links, db.evidences, key);
    forall did | did in db.decisions && KeyOfDecision(db.decisions[did]) == key ::
      && |arrivals| > 0 && arrivals[|arrivals| - 1].decision in db.decisions
      && (did == arrivals[|arrivals| - 1].decision || Before(db, did, arrivals[|arrivals| - 1].decision))
  }

  /** If the open key names a decision, it is that of the last arrival. */
  predicate NamesLast(w: World, key: OpenKey) {
    var arrivals := Arrivals(w.db.links, w.db.evidences, key);
    NamesDecision(w, key) ==> |arrivals| > 0 && w.index[key].decision == arrivals[|arrivals| - 1].decision
  }

  /******* Arrivals *******/

  lemma {:induction false} ArrivalsIgnoreUnlinked(links: seq<Link>, evidences: map<Id, Evidence>, eid: Id,
      e: Evidence, key: OpenKey)
    requires eid !in evidences && forall l | l in links :: l.evidence != eid
    ensures Arrivals(links, evidences[eid := e], key) == Arrivals(links, evidences, key)
  {
    if |links| > 0 {
      assert links[|links| - 1] in links;
      ArrivalsIgnoreUnlinked(links[..|links| - 1], evidences, eid, e, key);
    }
  }

  lemma {:induction false} ArrivalsAreLinks(links: seq<Link>, evidences: map<Id, Evidence>, key: OpenKey)
    ensures forall l :: l in Arrivals(links, evidences, key) <==>
      l in links && l.evidence in evidences && KeyOfEvidence(evidences[l.evidence]) == key
  {
    if |links| > 0 {
      ArrivalsAreLinks(links[..|links| - 1], evidences, key);
      assert links == links[..|links| - 1] + [links[|links| - 1]];
    }
  }

  lemma ArrivalsAppend(links: seq<Link>, evidences: map<Id, Evidence>, l: Link, key: OpenKey)
    ensures Arrivals(links + [l], evidences, key)
            == if l.evidence in evidences && KeyOfEvidence(evidences[l.evidence]) == key
               then Arrivals(links, evidences, key) + [l] else Arrivals(links, evidences, key)
  {
    assert (links + [l])[..|links|] == links;
  }

  /** One more arrival, by the reference. */
  lemma OpenersAppend(arrivals: seq<Link>, evidences: map<Id, Evidence>, l: Link, span: Time)
    ensures
      var before, n := Openers(Times(arrivals, evidences), span), |arrivals|;
      Openers(Times(arrivals + [l], evidences), span)
      == if n > 0 && CaptureTime(evidences, l) <= CaptureTime(evidences, arrivals[before[n - 1]]) + span
         then before + [before[n - 1]] else before + [n]
  {
    assert Times(arrivals + [l], evidences)[..|arrivals|] == Times(arrivals, evidences);
  }

  /******* Steps *******/

  /** Same arrivals, decisions with the same identity. */
  lemma UntouchedFollows(db: Database, db': Database, key: OpenKey)
    requires key.tenant in db.tenants && db'.tenants == db.tenants && FollowsReference(db, key) && RowsGrown(db, db')
    requires Arrivals(db'.links, db'.evidences, key) == Arrivals(db.links, db.evidences, key)
    ensures FollowsReference(db', key)
  {
    var arrivals := Arrivals(db.links, db.evidences, key);
    ArrivalsAreLinks(db.links, db.evidences, key);
    assert Times(arrivals, db'.evidences) == Times(arrivals, db.evidences);
    var openers := Openers(Times(arrivals, db.evidences), Seconds(db.tenants[key.tenant].windowSecs));
    forall i | 0 <= i < |arrivals| ensures Placed(db', arrivals, openers, i) && Fresh(arrivals, openers, i) {
      assert Placed(db, arrivals, openers, i) && Fresh(arrivals, openers, i);
      assert arrivals[openers[i]] in arrivals;
    }
  }

  /** The reference has the evidence of the link join the window of the arrival before it. */
  predicate Joins(db: Database, key: OpenKey, l: Link)
    requires key.tenant in db.tenants && l.evidence in db.evidences
  {
    var arrivals := Arrivals(db.links, db.evidences, key);
    && |arrivals| > 0 && arrivals[|arrivals| - 1].decision in db.decisions
    && db.evidences[l.evidence].capturedAt
       <= db.decisions[arrivals[|arrivals| - 1].decision].windowStart + Seconds(db.tenants[key.tenant].windowSecs)
  }

  /** The link puts its evidence where the reference does. */
  ghost predicate PutsRight(db: Database, db': Database, key: OpenKey, l: Link)
    requires key.tenant in db.tenants && l.evidence in db.evidences && l.decision in db'.decisions
  {
    var arrivals := Arrivals(db.links, db.evidences, key);
    if Joins(db, key, l) then l.decision == arrivals[|arrivals| - 1].decision
    else l.decision !in db.decisions && db'.decisions[l.decision].windowStart == db.evidences[l.evidence].capturedAt
  }

  /** A new arrival for the key, put where the reference puts it. */
  lemma ArrivalFollows(db: Database, db': Database, key: OpenKey, l: Link)
    requires key.tenant in db.tenants && db'.tenants == db.tenants && FollowsReference(db, key)
    requires RowsGrown(db, db') && db'.evidences == db.evidences
    requires l.evidence in db.evidences && l.decision in db'.decisions
    requires Arrivals(db'.links, db.evidences, key) == Arrivals(db.links, db.evidences, key) + [l]
    requires PutsRight(db, db', key, l)
    ensures FollowsReference(db', key)
  {
    var evidences, span := db.evidences, Seconds(db.tenants[key.tenant].windowSecs);
    var arrivals := Arrivals(db.links, evidences, key);
    var n := |arrivals|;
    var arrivals' := arrivals + [l];
    var openers := Openers(Times(arrivals, evidences), span);
    var openers' := Openers(Times(arrivals', evidences), span);
    OpenersAppend(arrivals, evidences, l, span);
    if n > 0 {
      assert Placed(db, arrivals, openers, n - 1);
    }
    forall i | 0 <= i < |arrivals'| ensures Placed(db', arrivals', openers', i) && Fresh(arrivals', openers', i) {
      if i < n {
        assert Placed(db, arrivals, openers, i) && Fresh(arrivals, openers, i);
        assert openers'[i] == openers[i];
      } else {
        forall j | 0 <= j < n ensures arrivals[j].decision in db.decisions {
          assert Placed(db, arrivals, openers, j);
        }
      }
    }
  }

  /** A new decision for evidence that the reference has join another one: the arrival is out of place. */
  lemma StrayDoesNotFollow(db: Database, db': Database, key: OpenKey, l: Link)
    requires key.tenant in db.tenants && db'.tenants == db.tenants && FollowsReference(db, key)
    requires db'.evidences == db.evidences && l.evidence in db.evidences && l.decision !in db.decisions
    requires Arrivals(db'.links, db.evidences, key) == Arrivals(db.links, db.evidences, key) + [l]
    requires Joins(db, key, l)
    ensures !FollowsReference(db', key)
  {
    var evidences, span := db.evidences, Seconds(db.tenants[key.tenant].windowSecs);
    var arrivals := Arrivals(db.links, evidences, key);
    var n := |arrivals|;
    var openers := Openers(Times(arrivals, evidences), span);
    var openers' := Openers(Times(arrivals + [l], evidences), span);
    OpenersAppend(arrivals, evidences, l, span);
    assert Placed(db, arrivals, openers, n - 1);
    assert openers'[n] == openers[n - 1] < n;
    assert (arrivals + [l])[openers'[n]].decision in db.decisions;
    assert !Placed(db', arrivals + [l], openers', n);
  }

  /** No decision is added: the arrivals stay, or one more goes to the latest decision. */
  lemma {:induction false} QuietStepArrivals(w: World, ts: TimedStep, key: OpenKey, expiring: bool)
    requires RowsSound(w.db) && IndexSound(w) && !Creates(w, ts, expiring)
    ensures
      var w' := NextBy(w, ts, expiring);
      var arrivals, arrivals' := Arrivals(w.db.links, w.db.evidences, key), Arrivals(w'.db.links, w'.db.evidences, key);
      || arrivals' == arrivals
      || (&& NamesDecision(w, key) && ts.step.AggregateStep? && ts.step.call.evidence in w.db.evidences
          && w'.db.evidences == w.db.evidences && KeyOfEvidence(w.db.evidences[ts.step.call.evidence]) == key
          && w.db.evidences[ts.step.call.evidence].capturedAt <= w.db.decisions[w.index[key].decision].windowEnd
          && arrivals' == arrivals + [Link(w.index[key].decision, ts.step.call.evidence)])
  {
    if Enabled(w, ts) && ts.step.AggregateStep? {
      var call := ts.step.call;
      var found := FoundBy(w, call, ts.at, expiring);
      AggregateIsTransactional(w, found, call, ts.at);
      if AggregateWith(w, found, call, ts.at).1.Aggregated? {
        CommittedShape(w.db, found, call, ts.at);
        ArrivalsAppend(w.db.links, w.db.evidences, Link(found.value, call.evidence), key);
      }
    } else if Enabled(w, ts) && ts.step.RecordEvidenceStep? {
      forall l | l in w.db.links ensures l.evidence != ts.step.evidenceId {
        assert LinkSound(w.db, l);
      }
      ArrivalsIgnoreUnlinked(w.db.links, w.db.evidences, ts.step.evidenceId, ts.step.evidence, key);
    } else if Enabled(w, ts) {
      OtherStepKeepsLinks(w, ts);
    }
  }

  lemma OtherStepKeepsLinks(w: World, ts: TimedStep)
    requires !ts.step.AggregateStep? && !ts.step.RecordEvidenceStep?
    ensures Next(w, ts).db.links == w.db.links && Next(w, ts).db.evidences == w.db.evidences
  {
  }

  /** A decision is added: one more arrival of its key. */
  lemma {:induction false} CreatingStepArrivals(w: World, ts: TimedStep, key: OpenKey, expiring: bool)
    requires RowsSound(w.db) && IndexSound(w) && Creates(w, ts, expiring)
    ensures
      var w', call := NextBy(w, ts, expiring), ts.step.call;
      var arrivals, arrivals' := Arrivals(w.db.links, w.db.evidences, key), Arrivals(w'.db.links, w'.db.evidences, key);
      arrivals' == if KeyOfEvidence(w.db.evidences[call.evidence]) == key
                   then arrivals + [Link(call.newId, call.evidence)] else arrivals
  {
    StepAdds(w, ts, expiring);
    ArrivalsAppend(w.db.links, w.db.evidences, Link(ts.step.call.newId, ts.step.call.evidence), key);
  }

  lemma AddsKeepsLast(db: Database, db': Database, key: OpenKey, id: Id, eid: Id)
    requires LastIsLatest(db, key) && Adds(db, db', id, eid)
    requires
      Arrivals(db'.links, db'.evidences, key)
      == if KeyOfEvidence(db.evidences[eid]) == key then Arrivals(db.links, db.evidences, key) + [Link(id, eid)]
         else Arrivals(db.links, db.evidences, key)
    requires KeyOfEvidence(db.evidences[eid]) == key ==> !StillHeld(db, key, db.evidences[eid])
    ensures LastIsLatest(db', key)
  {
    forall did | did in db.decisions && KeyOfDecision(db'.decisions[did]) == key
      ensures KeyOfDecision(db.decisions[did]) == key
    {
    }
  }

  lemma AddsNoneKeepsLast(db: Database, db': Database, key: OpenKey)
    requires LastIsLatest(db, key) && AddsNone(db, db')
    requires
      var arrivals, arrivals' := Arrivals(db.links, db.evidences, key), Arrivals(db'.links, db'.evidences, key);
      arrivals' == arrivals
      || (|arrivals'| > 0 && |arrivals| > 0
          && arrivals'[|arrivals'| - 1].decision == arrivals[|arrivals| - 1].decision)
    ensures LastIsLatest(db', key)
  {
    forall did | did in db'.decisions && KeyOfDecision(db'.decisions[did]) == key
      ensures KeyOfDecision(db.decisions[did]) == key
    {
    }
  }

  lemma {:induction false} NextKeepsLast(w: World, ts: TimedStep, key: OpenKey, expiring: bool)
    requires RowsSound(w.db) && IndexSound(w) && !SplitsWindow(w, ts, key, expiring)
    requires LastIsLatest(w.db, key) && NamesLast(w, key)
    ensures LastIsLatest(NextBy(w, ts, expiring).db, key)
  {
    var db' := NextBy(w, ts, expiring).db;
    StepAdds(w, ts, expiring);
    if Creates(w, ts, expiring) {
      CreatingStepArrivals(w, ts, key, expiring);
      AddsKeepsLast(w.db, db', key, ts.step.call.newId, ts.step.call.evidence);
    } else {
      QuietStepArrivals(w, ts, key, expiring);
      AddsNoneKeepsLast(w.db, db', key);
    }
  }

  lemma {:induction false} NextNamesLast(w: World, ts: TimedStep, key: OpenKey, expiring: bool)
    requires RowsSound(w.db) && IndexSound(w) && NamesLast(w, key)
    ensures NamesLast(NextBy(w, ts, expiring), key)
  {
    if NamesDecision(NextBy(w, ts, expiring), key) {
      StepMovesName(w, ts, key, expiring);
    }
    if Creates(w, ts, expiring) {
      CreatingStepArrivals(w, ts, key, expiring);
    } else {
      QuietStepArrivals(w, ts, key, expiring);
    }
  }

  lemma WindowEnds(db: Database, key: OpenKey, did: Id)
    requires WindowsSound(db) && did in db.decisions && db.decisions[did].tenant == key.tenant
    ensures key.tenant in db.tenants
    ensures db.decisions[did].windowEnd
            == db.decisions[did].windowStart + Seconds(db.tenants[key.tenant].windowSecs)
  {
  }

  /** A decision created for evidence that no window of the key holds any more is where the reference wants it. */
  lemma CreatedFollows(db: Database, db': Database, key: OpenKey, id: Id, eid: Id)
    requires RowsSound(db) && key.tenant in db.tenants && FollowsReference(db, key) && db'.tenants == db.tenants
    requires Adds(db, db', id, eid) && !StillHeld(db, key, db.evidences[eid])
    requires Arrivals(db'.links, db'.evidences, key) == Arrivals(db.links, db.evidences, key) + [Link(id, eid)]
    ensures FollowsReference(db', key)
  {
    var arrivals := Arrivals(db.links, db.evidences, key);
    if |arrivals| > 0 {
      LastArrivalIsOfKey(db, key);
      WindowEnds(db, key, arrivals[|arrivals| - 1].decision);
    }
    ArrivalFollows(db, db', key, Link(id, eid));
  }

  /** A step that splits no window of the key keeps its arrivals in place. */
  lemma {:induction false} NextFollows(w: World, ts: TimedStep, key: OpenKey, expiring: bool)
    requires RowsSound(w.db) && IndexSound(w) && NamesLast(w, key) && key.tenant in w.db.tenants
    requires FollowsReference(w.db, key) && !SplitsWindow(w, ts, key, expiring)
    ensures NextBy(w, ts, expiring).db.tenants == w.db.tenants && FollowsReference(NextBy(w, ts, expiring).db, key)
  {
    var db, db' := w.db, NextBy(w, ts, expiring).db;
    NextKeepsBooks(w, ts, expiring);
    StepAdds(w, ts, expiring);
    if Creates(w, ts, expiring) {
      CreatingStepArrivals(w, ts, key, expiring);
    } else {
      QuietStepArrivals(w, ts, key, expiring);
    }
    if Arrivals(db'.links, db'.evidences, key) == Arrivals(db.links, db.evidences, key) {
      UntouchedFollows(db, db', key);
    } else if Creates(w, ts, expiring) {
      CreatedFollows(db, db', key, ts.step.call.newId, ts.step.call.evidence);
    } else {
      WindowEnds(db, key, w.index[key].decision);
      ArrivalFollows(db, db', key, Link(w.index[key].decision, ts.step.call.evidence));
    }
  }

  lemma LastArrivalIsOfKey(db: Database, key: OpenKey)
    requires LinksSound(db) && |Arrivals(db.links, db.evidences, key)| > 0
    ensures
      var did := Arrivals(db.links, db.evidences, key)[|Arrivals(db.links, db.evidences, key)| - 1].decision;
      did in db.decisions && KeyOfDecision(db.decisions[did]) == key
  {
    var arrivals := Arrivals(db.links, db.evidences, key);
    ArrivalsAreLinks(db.links, db.evidences, key);
    assert arrivals[|arrivals| - 1] in arrivals;
    assert LinkSound(db, arrivals[|arrivals| - 1]);
  }

  /** Evidence that a window of the key still holds would join the last arrival, if windows are not negative. */
  lemma HeldJoins(db: Database, key: OpenKey, l: Link)
    requires RowsSound(db) && key.tenant in db.tenants && UsableWindow(db, key.tenant) && LastIsLatest(db, key)
    requires l.evidence in db.evidences && StillHeld(db, key, db.evidences[l.evidence])
    ensures Joins(db, key, l)
  {
    var did :| did in db.decisions && KeyOfDecision(db.decisions[did]) == key
               && db.evidences[l.evidence].capturedAt <= db.decisions[did].windowEnd;
    var arrivals := Arrivals(db.links, db.evidences, key);
    LastArrivalIsOfKey(db, key);
    WindowEnds(db, key, did);
    WindowEnds(db, key, arrivals[|arrivals| - 1].decision);
  }

  /** A step that splits a window of the key, one that is not negative, puts its evidence out of place. */
  lemma {:induction false} SplitDoesNotFollow(w: World, ts: TimedStep, key: OpenKey, expiring: bool)
    requires RowsSound(w.db) && IndexSound(w) && LastIsLatest(w.db, key) && key.tenant in w.db.tenants
    requires FollowsReference(w.db, key) && SplitsWindow(w, ts, key, expiring) && UsableWindow(w.db, key.tenant)
    ensures NextBy(w, ts, expiring).db.tenants == w.db.tenants && !FollowsReference(NextBy(w, ts, expiring).db, key)
  {
    var l := Link(ts.step.call.newId, ts.step.call.evidence);
    NextKeepsBooks(w, ts, expiring);
    StepAdds(w, ts, expiring);
    CreatingStepArrivals(w, ts, key, expiring);
    HeldJoins(w.db, key, l);
    StrayDoesNotFollow(w.db, NextBy(w, ts, expiring).db, key, l);
  }

  /******* Runs *******/

  ghost predicate FollowsThroughout(w: World, run: seq<TimedStep>, key: OpenKey, expiring: bool) {
    var db := AfterBy(w, run, expiring).db;
    && key.tenant in db.tenants && FollowsReference(db, key)
    && (|run| == 0 || FollowsThroughout(w, run[..|run| - 1], key, expiring))
  }

  lemma {:induction false} LastAlwaysLatest(w: World, run: seq<TimedStep>, key: OpenKey, expiring: bool)
    requires Initial(w) && NoSplitRun(w, run, key, expiring)
    ensures LastIsLatest(AfterBy(w, run, expiring).db, key) && NamesLast(AfterBy(w, run, expiring), key)
  {
    if |run| > 0 {
      var before := AfterBy(w, run[..|run| - 1], expiring);
      LastAlwaysLatest(w, run[..|run| - 1], key, expiring);
      BooksBalanceBy(w, run[..|run| - 1], expiring);
      NextKeepsLast(before, run[|run| - 1], key, expiring);
      NextNamesLast(before, run[|run| - 1], key, expiring);
    }
  }

  /**
   In every run that splits no window of a (tenant, camera, region), whatever the sign of its window, the index
   implements greedy windowing throughout: the links of the key, in order of arrival, are placed by the reference, with
   one decision per window that the reference opens. If the window is not negative the converse holds too.
   */
  lemma {:induction false} IndexImplementsGreedyWindowing(w: World, run: seq<TimedStep>, key: OpenKey, expiring: bool)
    requires Initial(w) && key.tenant in w.db.tenants
    ensures NoSplitRun(w, run, key, expiring) ==> FollowsThroughout(w, run, key, expiring)
    ensures UsableWindow(w.db, key.tenant) ==>
              (FollowsThroughout(w, run, key, expiring) <==> NoSplitRun(w, run, key, expiring))
  {
    BooksBalanceBy(w, run, expiring);
    if |run| > 0 {
      var front := run[..|run| - 1];
      var u, ts := AfterBy(w, front, expiring), run[|run| - 1];
      IndexImplementsGreedyWindowing(w, front, key, expiring);
      BooksBalanceBy(w, front, expiring);
      if NoSplitRun(w, front, key, expiring) {
        LastAlwaysLatest(w, front, key, expiring);
        if !SplitsWindow(u, ts, key, expiring) {
          NextFollows(u, ts, key, expiring);
        } else if UsableWindow(w.db, key.tenant) {
          SplitDoesNotFollow(u, ts, key, expiring);
        }
      }
    }
  }

  /** Every decision of the key is that of an arrival. */
  lemma DecisionsHaveArrivals(db: Database, key: OpenKey, did: Id)
    requires AllOpened(db) && RowsSound(db) && did in DecisionsOf(db, key)
    ensures exists l :: l in Arrivals(db.links, db.evidences, key) && l.decision == did
  {
    assert Opened(db, did);
    var i :| 0 <= i < |db.links| && Opens(db, i, did);
    assert LinkSound(db, db.links[i]);
    ArrivalsAreLinks(db.links, db.evidences, key);
  }

  /**
   The run as it happens, its keys expiring, for a window that is not negative: if the run leaves the key never without
   the decision it names and comes upon it never lapsed too soon, which evidence shares a decision is what the reference
   says, every decision is that of an arrival, no covering of the capture times is smaller and, in order of capture, the
   windows are such a covering.
   */
  lemma {:induction false} ExpiringIndexIsGreedyAndOptimal(w: World, run: seq<TimedStep>, key: OpenKey,
                                                           starts: set<Time>)
    requires Initial(w) && UsableWindow(w.db, key.tenant) && key.tenant in w.db.tenants
    requires LosesNoKeyRun(w, run, key) && OnTimeRun(w, run)
    ensures
      var db, span := After(w, run).db, Seconds(w.db.tenants[key.tenant].windowSecs);
      && db.tenants == w.db.tenants && FollowsReference(db, key)
      && (forall did | did in DecisionsOf(db, key) ::
            exists l :: l in Arrivals(db.links, db.evidences, key) && l.decision == did)
      && (Covers(db, key, starts, span) ==> |DecisionsOf(db, key)| <= |starts|)
      && (InOrder(db, key) ==>
            Covers(db, key, WindowStarts(db, key), span) && |WindowStarts(db, key)| == |DecisionsOf(db, key)|)
  {
    AfterByIs(w, run);
    OnTimeRunKeepsKey(w, run, key);
    KeptKeySplitsNothing(w, run, key, true);
    BooksBalanceBy(w, run, true);
    DecisionsAlwaysOpened(w, run, true);
    IndexImplementsGreedyWindowing(w, run, key, true);
    GreedyWindowingIsOptimal(w, run, key, starts, true);
    var db := After(w, run).db;
    forall did | did in DecisionsOf(db, key)
      ensures exists l :: l in Arrivals(db.links, db.evidences, key) && l.decision == did
    {
      DecisionsHaveArrivals(db, key, did);
    }
  }
}
