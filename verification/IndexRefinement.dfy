/**
 The expiring open-decision index refines one whose keys never expire, in exactly those runs in which no aggregate
 comes upon a lapsed key that names a decision whose window still holds the evidence. An open key lives for the window
 plus 300 s after it was set, so runs whose lags between capture and aggregation spread over less than 300 s never do.
 */
module IndexRefinement {
  import opened Domain
  import opened Lifecycle
  import opened Bookkeeping

  /******* Runs of the index whose keys never expire *******/

  function FoundForever(w: World, call: AggregateCall): Option<Id> {
    var key := KeyOfCall(w.db, call);
    if key.Some? then LookupForever(w.index, key.value) else None
  }

  function NextForever(w: World, ts: TimedStep): World {
    if Enabled(w, ts) && ts.step.AggregateStep?
    then AggregateWith(w, FoundForever(w, ts.step.call), ts.step.call, ts.at).0.(now := ts.at)
    else Next(w, ts)
  }

  function AfterForever(w: World, run: seq<TimedStep>): World {
    if |run| == 0 then w else NextForever(AfterForever(w, run[..|run| - 1]), run[|run| - 1])
  }

  /******* When expiry matters *******/

  predicate Lapsed(index: Index, key: OpenKey, at: Time) {
    key in index && index[key].expiresAt <= at
  }

  /** The evidence would still go to the decision that the key names, if the key had not lapsed. */
  predicate LapsedTooSoon(w: World, e: Evidence, at: Time) {
    && Lapsed(w.index, KeyOfEvidence(e), at)
    && var did := w.index[KeyOfEvidence(e)].decision;
       did in w.db.decisions && e.capturedAt <= w.db.decisions[did].windowEnd
  }

  /** The step is an aggregate that looks up its key and comes upon one that has lapsed too soon. */
  predicate MeetsLapsedKey(w: World, ts: TimedStep) {
    && Enabled(w, ts) && ts.step.AggregateStep? && ts.step.call.fault != LookupFails
    && ts.step.call.evidence in w.db.evidences
    && var e := w.db.evidences[ts.step.call.evidence];
       e.tenant in w.db.tenants && LapsedTooSoon(w, e, ts.at)
  }

  /** No aggregate of the run comes upon a key that has lapsed too soon. */
  ghost predicate OnTimeRun(w: World, run: seq<TimedStep>) {
    |run| == 0 || (OnTimeRun(w, run[..|run| - 1]) && !MeetsLapsedKey(After(w, run[..|run| - 1]), run[|run| - 1]))
  }

  /** Both lookups send the evidence to the same decision, or to a new one, unless the key has lapsed too soon. */
  lemma SameTargetIff(w: World, call: AggregateCall, at: Time)
    requires call.evidence in w.db.evidences
    ensures
      var e := w.db.evidences[call.evidence];
      Target(w.db, Found(w, call, at), e) == Target(w.db, FoundForever(w, call), e) <==> !LapsedTooSoon(w, e, at)
  {
  }

  /******* Prompt runs *******/

  /**
   The aggregate of recorded evidence lags its capture by no less than `lo` and no more than `hi`. A lag is negative
   when the capturing clock is ahead.
   */
  ghost predicate LagWithin(w: World, ts: TimedStep, lo: Time, hi: Time) {
    ts.step.AggregateStep? && ts.step.call.evidence in w.db.evidences ==>
      lo <= ts.at - w.db.evidences[ts.step.call.evidence].capturedAt <= hi
  }

  ghost predicate LagRun(w: World, run: seq<TimedStep>, lo: Time, hi: Time) {
    |run| == 0
    || (LagRun(w, run[..|run| - 1], lo, hi) && LagWithin(After(w, run[..|run| - 1]), run[|run| - 1], lo, hi))
  }

  /** A key outlives the window of the decision it names by 300 s and the least lag. */
  ghost predicate KeysOutliveWindows(w: World, lo: Time) {
    forall k | k in w.index && w.index[k].decision in w.db.decisions ::
      w.db.decisions[w.index[k].decision].windowEnd + Seconds(300) + lo <= w.index[k].expiresAt
  }

  lemma {:induction false} AggregateKeepsOutlive(w: World, call: AggregateCall, at: Time, lo: Time)
    requires IndexSound(w) && KeysOutliveWindows(w, lo) && call.newId !in w.issued
    requires call.evidence in w.db.evidences ==> w.db.evidences[call.evidence].capturedAt + lo <= at
    ensures KeysOutliveWindows(AggregateWith(w, Found(w, call, at), call, at).0, lo)
  {
    var found := Found(w, call, at);
    var w' := AggregateWith(w, found, call, at).0;
    AggregateRows(w, found, call, at);
    AggregateIsTransactional(w, found, call, at);
    if call.evidence in w.db.evidences && w.db.evidences[call.evidence].tenant in w.db.tenants {
      AggregateMovesOneKey(w, found, call, at);
      OutliveAfterKeyMove(w, w', call, at, lo);
    }
  }

  lemma OutliveAfterKeyMove(w: World, w': World, call: AggregateCall, at: Time, lo: Time)
    requires IndexSound(w) && KeysOutliveWindows(w, lo) && call.newId !in w.issued
    requires call.evidence in w.db.evidences && w.db.evidences[call.evidence].tenant in w.db.tenants
    requires w.db.evidences[call.evidence].capturedAt + lo <= at && KeyMoves(w, w', call, at)
    requires forall did | did in w.db.decisions ::
      did in w'.db.decisions && SameIdentity(w.db.decisions[did], w'.db.decisions[did])
    requires w'.db.decisions.Keys <= w.db.decisions.Keys + {call.newId}
    requires
      var e := w.db.evidences[call.evidence];
      call.newId in w'.db.decisions ==>
        SameIdentity(NewDecision(e, w.db.tenants[e.tenant], at), w'.db.decisions[call.newId])
    ensures KeysOutliveWindows(w', lo)
  {
  }

  lemma {:induction false} NextKeepsOutlive(w: World, ts: TimedStep, lo: Time, hi: Time)
    requires IndexSound(w) && KeysOutliveWindows(w, lo) && LagWithin(w, ts, lo, hi)
    ensures KeysOutliveWindows(Next(w, ts), lo)
  {
    if Enabled(w, ts) && ts.step.AggregateStep? {
      AggregateKeepsOutlive(w, ts.step.call, ts.at, lo);
    } else {
      NextKeepsIdentity(w, ts);
    }
  }

  lemma {:induction false} OutliveAlways(w: World, run: seq<TimedStep>, lo: Time, hi: Time)
    requires Initial(w) && LagRun(w, run, lo, hi)
    ensures KeysOutliveWindows(After(w, run), lo)
  {
    if |run| > 0 {
      var front := run[..|run| - 1];
      OutliveAlways(w, front, lo, hi);
      BooksAlwaysBalance(w, front);
      NextKeepsOutlive(After(w, front), run[|run| - 1], lo, hi);
    }
  }

  /** If the lags of a run spread over less than 300 s, no aggregate comes upon a key that has lapsed too soon. */
  lemma {:induction false} PromptRunsAreOnTime(w: World, run: seq<TimedStep>, lo: Time, hi: Time)
    requires Initial(w) && LagRun(w, run, lo, hi) && hi - lo < Seconds(300)
    ensures OnTimeRun(w, run)
  {
    if |run| > 0 {
      PromptRunsAreOnTime(w, run[..|run| - 1], lo, hi);
      OutliveAlways(w, run[..|run| - 1], lo, hi);
    }
  }

  /******* The simulation *******/

  /** The worlds differ only in keys that have expired in `w` and are gone in `v`. */
  ghost predicate Related(w: World, v: World) {
    && w == v.(index := w.index)
    && (forall k | k in v.index :: k in w.index && w.index[k] == v.index[k])
    && (forall k | k in w.index && k !in v.index :: w.index[k].expiresAt <= w.now)
  }

  /**
   The step of the other run that matches `ts`: the same one, except that a DELETE which only the run
   without expiry reaches does not fail there.
   */
  function MatchingStep(w: World, v: World, ts: TimedStep): TimedStep {
    if ts.step.AggregateStep? && ts.step.call.fault == DeleteFails
       && Found(w, ts.step.call, ts.at) != FoundForever(v, ts.step.call)
    then ts.(step := AggregateStep(ts.step.call.(fault := NoFault)))
    else ts
  }

  function MatchingRun(w: World, run: seq<TimedStep>): seq<TimedStep> {
    if |run| == 0 then []
    else
      var front := MatchingRun(w, run[..|run| - 1]);
      front + [MatchingStep(After(w, run[..|run| - 1]), AfterForever(w, front), run[|run| - 1])]
  }

  /** Worlds after an aggregate at `at`, whose clocks have not been moved yet. */
  ghost predicate RelatedAt(w: World, v: World, at: Time) {
    Related(w.(now := at), v.(now := at))
  }

  lemma FinishKeepsRelated(w: World, v: World, base: Database, did: Id, call: AggregateCall, call': AggregateCall,
      t: Tenant, at: Time)
    requires RelatedAt(w, v, at) && did in base.decisions && call.evidence in base.evidences
    requires call' == call || (call.fault == DeleteFails && call' == call.(fault := NoFault))
    ensures
      var (w', r) := Finish(w, base, did, call, t, at);
      var (v', r') := Finish(v, base, did, call', t, at);
      RelatedAt(w', v', at) && r == r'
  {
  }

  ghost predicate ProgressRelated(p: Progress, q: Progress, at: Time) {
    match (p, q)
    case (Stopped(w, r), Stopped(v, r')) => RelatedAt(w, v, at) && r == r'
    case (Ready(w, base, did), Ready(v, base', did')) => RelatedAt(w, v, at) && base == base' && did == did'
    case _ => false
  }

  /** Both lookups return the same. */
  lemma {:induction false} SameFoundKeepsRelated(w: World, v: World, found: Option<Id>, call: AggregateCall, at: Time)
    requires Related(w, v) && w.now < at
    requires call.evidence in w.db.evidences && w.db.evidences[call.evidence].tenant in w.db.tenants
    ensures ProgressRelated(Prepare(w, found, call, at), Prepare(v, found, call, at), at)
  {
  }

  /** The key has lapsed in one world, and its decision, if there is one, closed before the evidence was captured. */
  lemma {:induction false} LapsedKeepsRelated(w: World, v: World, call: AggregateCall, at: Time)
    requires Related(w, v) && w.now < at && Found(w, call, at) != FoundForever(v, call)
    requires call.evidence in w.db.evidences && w.db.evidences[call.evidence].tenant in w.db.tenants
    requires !LapsedTooSoon(v, w.db.evidences[call.evidence], at)
    ensures
      var call' := if call.fault == DeleteFails then call.(fault := NoFault) else call;
      ProgressRelated(Prepare(w, Found(w, call, at), call, at), Prepare(v, FoundForever(v, call), call', at), at)
  {
    var e := w.db.evidences[call.evidence];
    var key := KeyOfEvidence(e);
    assert Found(w, call, at).None? && key in w.index && w.index[key].expiresAt <= at;
    assert Target(w.db, FoundForever(v, call), e).None?;
  }

  lemma {:induction false} PrepareKeepsRelated(w: World, v: World, call: AggregateCall, call': AggregateCall, at: Time)
    requires Related(w, v) && w.now < at
    requires call.evidence in w.db.evidences && w.db.evidences[call.evidence].tenant in w.db.tenants
    requires !LapsedTooSoon(v, w.db.evidences[call.evidence], at)
    requires call' == if call.fault == DeleteFails && Found(w, call, at) != FoundForever(v, call)
                      then call.(fault := NoFault) else call
    ensures ProgressRelated(Prepare(w, Found(w, call, at), call, at), Prepare(v, FoundForever(v, call'), call', at), at)
  {
    if Found(w, call, at) == FoundForever(v, call) {
      SameFoundKeepsRelated(w, v, Found(w, call, at), call, at);
    } else {
      LapsedKeepsRelated(w, v, call, at);
    }
  }

  lemma {:induction false} AggregateKeepsRelated(w: World, v: World, call: AggregateCall, call': AggregateCall,
      at: Time)
    requires Related(w, v) && w.now < at
    requires call.fault != LookupFails ==> !MeetsLapsedKey(v, TimedStep(AggregateStep(call), at))
    requires Enabled(v, TimedStep(AggregateStep(call), at))
    requires call' == if call.fault == DeleteFails && Found(w, call, at) != FoundForever(v, call)
                      then call.(fault := NoFault) else call
    ensures
      var (w', r) := AggregateWith(w, Found(w, call, at), call, at);
      var (v', r') := AggregateWith(v, FoundForever(v, call'), call', at);
      RelatedAt(w', v', at) && r == r'
  {
    var known := call.evidence in w.db.evidences && w.db.evidences[call.evidence].tenant in w.db.tenants;
    if known && call.fault != LookupFails {
      PrepareKeepsRelated(w, v, call, call', at);
      var p, q := Prepare(w, Found(w, call, at), call, at), Prepare(v, FoundForever(v, call'), call', at);
      if p.Ready? {
        FinishKeepsRelated(p.world, q.world, p.base, p.decision, call, call',
          w.db.tenants[w.db.evidences[call.evidence].tenant], at);
      }
    }
  }

  lemma ResolveKeepsRelated(w: World, v: World, req: Id, at: Time, fault: ResolveFault)
    requires Related(w, v) && req in w.pending && w.now < at
    ensures Related(CommitResolve(w, req, at, fault).(now := at), CommitResolve(v, req, at, fault).(now := at))
  {
  }

  lemma OtherStepsKeepRelated(w: World, v: World, ts: TimedStep)
    requires Related(w, v) && !ts.step.AggregateStep?
    ensures Related(Next(w, ts), Next(v, ts))
  {
    if Enabled(w, ts) {
      match ts.step
      case CommitResolveStep(req, fault) => ResolveKeepsRelated(w, v, req, ts.at, fault);
      case _ =>
    }
  }

  /** Coming upon a key that has lapsed too soon, the run with expiry asks for a new decision. */
  lemma MeetingAsksForDecision(w: World, call: AggregateCall, at: Time)
    requires call.evidence in w.db.evidences && w.db.evidences[call.evidence].tenant in w.db.tenants
    requires Found(w, call, at).None? && call.fault != LookupFails
    ensures
      var (w', r) := AggregateWith(w, Found(w, call, at), call, at);
      && w'.issued == w.issued + {call.newId}
      && (r.Aggregated? ==> w'.db.decisions.Keys == w.db.decisions.Keys + {call.newId})
  {
    var p := Prepare(w, Found(w, call, at), call, at);
    AggregateIsTransactional(w, Found(w, call, at), call, at);
    CommittedShape(w.db, Found(w, call, at), call, at);
    if p.Ready? {
      FinishLeavesRedis(p.world, p.base, p.decision, call, w.db.tenants[w.db.evidences[call.evidence].tenant], at);
    }
  }

  /** The run without expiry merges. */
  lemma MeetingMerges(v: World, call: AggregateCall, at: Time)
    requires MeetsLapsedKey(v, TimedStep(AggregateStep(call), at))
    ensures
      var v' := AggregateWith(v, FoundForever(v, call), call, at).0;
      v'.issued == v.issued && v'.db.decisions.Keys == v.db.decisions.Keys
  {
    var found := FoundForever(v, call);
    var p := Prepare(v, found, call, at);
    FinishLeavesRedis(v, p.base, p.decision, call, v.db.tenants[v.db.evidences[call.evidence].tenant], at);
    AggregateIsTransactional(v, found, call, at);
    CommittedShape(v.db, found, call, at);
  }

  lemma MeetingParts(w: World, v: World, call: AggregateCall, call': AggregateCall, at: Time)
    requires Related(w, v) && w.now < at && MeetsLapsedKey(v, TimedStep(AggregateStep(call), at))
    requires call' == call || call' == call.(fault := NoFault)
    ensures
      var (w', r) := AggregateWith(w, Found(w, call, at), call, at);
      var v' := AggregateWith(v, FoundForever(v, call'), call', at).0;
      && w'.issued == w.issued + {call.newId} && v'.issued == w.issued && v'.db.decisions.Keys == w.db.decisions.Keys
      && (r.Aggregated? ==> w'.db.decisions.Keys == w.db.decisions.Keys + {call.newId})
  {
    MeetingAsksForDecision(w, call, at);
    MeetingMerges(v, call', at);
  }

  lemma {:induction false} NextKeepsRelatedIff(w: World, v: World, ts: TimedStep)
    requires Related(w, v)
    ensures Related(Next(w, ts), NextForever(v, MatchingStep(w, v, ts))) <==> !MeetsLapsedKey(v, ts)
  {
    if !ts.step.AggregateStep? {
      OtherStepsKeepRelated(w, v, ts);
    } else if Enabled(w, ts) {
      var call := ts.step.call;
      var call' := MatchingStep(w, v, ts).step.call;
      if MeetsLapsedKey(v, ts) {
        MeetingParts(w, v, call, call', ts.at);
        assert call.newId !in v.issued;
      } else {
        AggregateKeepsRelated(w, v, call, call', ts.at);
      }
    }
  }

  /** Throughout the run the two worlds differ only in keys that have expired in one of them. */
  ghost predicate RelatedThroughout(w: World, run: seq<TimedStep>) {
    && Related(After(w, run), AfterForever(w, MatchingRun(w, run)))
    && (|run| == 0 || RelatedThroughout(w, run[..|run| - 1]))
  }

  /** In the run without expiry no aggregate comes upon a key that has lapsed too soon. */
  ghost predicate OnTimeForever(w: World, run: seq<TimedStep>) {
    |run| == 0
    || (OnTimeForever(w, run[..|run| - 1])
        && !MeetsLapsedKey(AfterForever(w, MatchingRun(w, run[..|run| - 1])), run[|run| - 1]))
  }

  lemma AfterMatchingStep(w: World, run: seq<TimedStep>)
    requires |run| > 0
    ensures
      var front := run[..|run| - 1];
      var v := AfterForever(w, MatchingRun(w, front));
      AfterForever(w, MatchingRun(w, run)) == NextForever(v, MatchingStep(After(w, front), v, run[|run| - 1]))
  {
    var matching := MatchingRun(w, run);
    assert matching[..|matching| - 1] == MatchingRun(w, run[..|run| - 1]);
  }

  /**
   Expiry changes nothing throughout a run (no row, message, pending resolve, UUID given out, and no key that has not
   expired) if and only if no aggregate of the run comes upon a key that has lapsed too soon.
   */
  lemma {:induction false} ExpiryMattersIff(w: World, run: seq<TimedStep>)
    ensures RelatedThroughout(w, run) <==> OnTimeForever(w, run)
  {
    if |run| > 0 {
      var front := run[..|run| - 1];
      ExpiryMattersIff(w, front);
      AfterMatchingStep(w, run);
      if RelatedThroughout(w, front) {
        NextKeepsRelatedIff(After(w, front), AfterForever(w, MatchingRun(w, front)), run[|run| - 1]);
      }
    }
  }

  /** A run that is on time by its own keys agrees with the run without expiry throughout. */
  lemma {:induction false} OnTimeRunsAgree(w: World, run: seq<TimedStep>)
    requires OnTimeRun(w, run)
    ensures OnTimeForever(w, run) && RelatedThroughout(w, run)
  {
    if |run| > 0 {
      OnTimeRunsAgree(w, run[..|run| - 1]);
    }
    ExpiryMattersIff(w, run);
  }

  /** An aggregate that comes upon a key that has lapsed too soon and commits splits a window: one decision more. */
  lemma {:induction false} LapsedKeySplitsWindow(w: World, run: seq<TimedStep>)
    requires Initial(w) && |run| > 0 && OnTimeForever(w, run[..|run| - 1])
    requires
      var front, ts := run[..|run| - 1], run[|run| - 1];
      && MeetsLapsedKey(AfterForever(w, MatchingRun(w, front)), ts)
      && AggregateWith(After(w, front), Found(After(w, front), ts.step.call, ts.at), ts.step.call, ts.at).1.Aggregated?
    ensures
      var before := After(w, run[..|run| - 1]).db.decisions.Keys;
      var id := run[|run| - 1].step.call.newId;
      && AfterForever(w, MatchingRun(w, run)).db.decisions.Keys == before
      && id !in before && After(w, run).db.decisions.Keys == before + {id}
  {
    var front, ts := run[..|run| - 1], run[|run| - 1];
    var u, v := After(w, front), AfterForever(w, MatchingRun(w, front));
    ExpiryMattersIff(w, front);
    AfterMatchingStep(w, run);
    BooksAlwaysBalance(w, front);
    MeetingParts(u, v, ts.step.call, MatchingStep(u, v, ts).step.call, ts.at);
  }

  lemma {:induction false} MatchingIsTheRunItself(w: World, run: seq<TimedStep>)
    requires forall ts | ts in run && ts.step.AggregateStep? :: ts.step.call.fault != DeleteFails
    ensures MatchingRun(w, run) == run
  {
    if |run| > 0 {
      assert run[|run| - 1] in run;
      MatchingIsTheRunItself(w, run[..|run| - 1]);
      assert run == run[..|run| - 1] + [run[|run| - 1]];
    }
  }

  /**
   Expiry never changes an outcome: a run with expiring keys whose lags spread over less than 300 s has the same rows
   (links, decisions, states, audit trail), the same messages and the same pending resolves as the run with keys that
   never expire. Only a DELETE that fails has to be matched, since the other run may delete a key that is no longer
   there in this one.
   */
  lemma {:induction false} ExpiringIndexRefinesForever(w: World, run: seq<TimedStep>, lo: Time, hi: Time)
    requires Initial(w) && LagRun(w, run, lo, hi) && hi - lo < Seconds(300)
    ensures
      var expiring, forever := After(w, run), AfterForever(w, MatchingRun(w, run));
      expiring.db == forever.db && expiring.sent == forever.sent && expiring.pending == forever.pending
      && expiring.issued == forever.issued && expiring.commits == forever.commits
    ensures (forall ts | ts in run && ts.step.AggregateStep? :: ts.step.call.fault != DeleteFails) ==>
      After(w, run).db == AfterForever(w, run).db && After(w, run).sent == AfterForever(w, run).sent
  {
    PromptRunsAreOnTime(w, run, lo, hi);
    OnTimeRunsAgree(w, run);
    if forall ts | ts in run && ts.step.AggregateStep? :: ts.step.call.fault != DeleteFails {
      MatchingIsTheRunItself(w, run);
    }
  }

  /******* The bound on the spread is tight *******/

  function FirstOfWindow(w: World, tenant: Id, lo: Time): Evidence {
    Evidence(tenant, 0, None, w.now + 3 - lo, 1)
  }

  function LastOfWindow(w: World, tenant: Id, lo: Time): Evidence
    requires tenant in w.db.tenants
  {
    Evidence(tenant, 0, None, w.now + 3 - lo + Seconds(w.db.tenants[tenant].windowSecs), 1)
  }

  /** Two pieces of evidence, the second captured at the very end of the window that the first one opens. */
  function BothOfWindow(w: World, tenant: Id, lo: Time): map<Id, Evidence>
    requires tenant in w.db.tenants
  {
    map[0 := FirstOfWindow(w, tenant, lo), 1 := LastOfWindow(w, tenant, lo)]
  }

  /** The tenant's window is long enough to set an open key. */
  predicate SetsKeys(w: World, tenant: Id) {
    tenant in w.db.tenants && 0 < w.db.tenants[tenant].windowSecs + 300
  }

  function RecordBoth(w: World, tenant: Id, lo: Time): seq<TimedStep>
    requires tenant in w.db.tenants
  {
    [TimedStep(RecordEvidenceStep(0, FirstOfWindow(w, tenant, lo)), w.now + 1),
     TimedStep(RecordEvidenceStep(1, LastOfWindow(w, tenant, lo)), w.now + 2)]
  }

  lemma BothRecorded(w: World, tenant: Id, lo: Time)
    requires Initial(w) && tenant in w.db.tenants
    ensures
      var records := RecordBoth(w, tenant, lo);
      && After(w, records) == w.(now := w.now + 2, db := w.db.(evidences := BothOfWindow(w, tenant, lo)))
      && LagRun(w, records, lo, lo) && OnTimeRun(w, records)
  {
    var records := RecordBoth(w, tenant, lo);
    assert records[..1] == [records[0]] && [records[0]][..0] == [];
    assert After(w, []) == w && LagRun(w, [], lo, lo) && OnTimeRun(w, []);
    var w1 := w.(now := w.now + 1, db := w.db.(evidences := map[0 := FirstOfWindow(w, tenant, lo)]));
    assert After(w, records[..1]) == w1;
    assert LagRun(w, records[..1], lo, lo) && OnTimeRun(w, records[..1]);
  }

  /** The first evidence of a stream opens a window. */
  lemma FirstPrepared(w: World, call: AggregateCall, e: Evidence, at: Time)
    requires w.db.decisions == map[] && w.index == map[] && w.issued == {}
    requires call == AggregateCall(0, 0, NoFault) && 0 in w.db.evidences
    requires w.db.evidences[0] == e && SetsKeys(w, e.tenant)
    ensures
      var p, t := Prepare(w, None, call, at), w.db.tenants[e.tenant];
      && p.Ready? && p.decision == 0 && p.base == Created(w.db, 0, e, t, at)
      && p.world == w.(issued := {0}, index := map[KeyOfEvidence(e) := Entry(0, at + Seconds(t.windowSecs + 300))])
  {
  }

  /** The window that the first evidence has opened. */
  ghost predicate WindowOpen(w: World, e: Evidence, at: Time) {
    && e.tenant in w.db.tenants && w.db.decisions.Keys == {0} && w.issued == {0}
    && var span := Seconds(w.db.tenants[e.tenant].windowSecs);
       && w.db.decisions[0].windowEnd == e.capturedAt + span
       && w.index == map[KeyOfEvidence(e) := Entry(0, at + span + Seconds(300))]
  }

  lemma FirstEvidenceOpens(w: World, e: Evidence, at: Time)
    requires w.db.decisions == map[] && w.index == map[] && w.issued == {}
    requires 0 in w.db.evidences && w.db.evidences[0] == e && SetsKeys(w, e.tenant)
    ensures
      var call := AggregateCall(0, 0, NoFault);
      var w' := AggregateWith(w, Found(w, call, at), call, at).0;
      WindowOpen(w', e, at) && w'.db.tenants == w.db.tenants && w'.db.evidences == w.db.evidences
  {
    var call := AggregateCall(0, 0, NoFault);
    assert Found(w, call, at) == None;
    FirstPrepared(w, call, e, at);
    var p := Prepare(w, None, call, at);
    FinishLeavesRedis(p.world, p.base, 0, call, w.db.tenants[e.tenant], at);
    AggregateIsTransactional(w, None, call, at);
    CommittedShape(w.db, None, call, at);
  }

  /** Both pieces recorded and the first one aggregated at once: an on-time run with an open window. */
  lemma WindowOpened(w: World, tenant: Id, lo: Time) returns (run: seq<TimedStep>)
    requires Initial(w) && SetsKeys(w, tenant)
    ensures
      var w' := After(w, run);
      && WindowOpen(w', FirstOfWindow(w, tenant, lo), w.now + 3) && w'.now == w.now + 3
      && w'.db.tenants == w.db.tenants && w'.db.evidences == BothOfWindow(w, tenant, lo)
    ensures LagRun(w, run, lo, lo) && OnTimeRun(w, run)
  {
    var records := RecordBoth(w, tenant, lo);
    var ts := TimedStep(AggregateStep(AggregateCall(0, 0, NoFault)), w.now + 3);
    run := records + [ts];
    assert run[..|run| - 1] == records;
    BothRecorded(w, tenant, lo);
    FirstAggregateOpens(After(w, records), FirstOfWindow(w, tenant, lo), ts, lo);
  }

  /** The step that aggregates the first evidence, with the least lag. */
  lemma FirstAggregateOpens(w: World, e: Evidence, ts: TimedStep, lo: Time)
    requires w.db.decisions == map[] && w.index == map[] && w.issued == {} && w.now < ts.at
    requires 0 in w.db.evidences && w.db.evidences[0] == e && SetsKeys(w, e.tenant)
    requires ts.step == AggregateStep(AggregateCall(0, 0, NoFault)) && ts.at == e.capturedAt + lo
    ensures
      var w' := Next(w, ts);
      && WindowOpen(w', e, ts.at) && w'.now == ts.at
      && w'.db.tenants == w.db.tenants && w'.db.evidences == w.db.evidences
    ensures LagWithin(w, ts, lo, lo) && !MeetsLapsedKey(w, ts)
  {
    FirstEvidenceOpens(w, e, ts.at);
  }

  /**
   Two lags exactly 300 s apart split a window: the second evidence comes upon the key the instant that it lapses. The
   first lag may be of either sign.
   */
  lemma {:induction false} SpreadOf300SecondsSplitsWindow(w: World, tenant: Id, lo: Time) returns (run: seq<TimedStep>)
    requires Initial(w) && SetsKeys(w, tenant)
    ensures LagRun(w, run, lo, lo + Seconds(300))
    ensures After(w, run).db.decisions.Keys == {0, 1} && AfterForever(w, MatchingRun(w, run)).db.decisions.Keys == {0}
  {
    var front := WindowOpened(w, tenant, lo);
    var ts := LastOfRun(w, tenant);
    run := front + [ts];
    SpreadIs300Seconds(w, tenant, lo, front);
    OnTimeRunsAgree(w, front);
    LastEvidenceSplits(w, tenant, lo, After(w, front), AfterForever(w, MatchingRun(w, front)));
    LapsedKeySplitsAfter(w, front, ts);
  }

  /** The aggregate of the second evidence, at the instant that the key lapses. */
  function LastOfRun(w: World, tenant: Id): TimedStep
    requires tenant in w.db.tenants
  {
    TimedStep(AggregateStep(AggregateCall(1, 1, NoFault)),
              w.now + 3 + Seconds(w.db.tenants[tenant].windowSecs) + Seconds(300))
  }

  lemma SpreadIs300Seconds(w: World, tenant: Id, lo: Time, front: seq<TimedStep>)
    requires tenant in w.db.tenants && LagRun(w, front, lo, lo)
    requires After(w, front).db.evidences == BothOfWindow(w, tenant, lo)
    ensures LagRun(w, front + [LastOfRun(w, tenant)], lo, lo + Seconds(300))
  {
    LagRunGrows(w, front, lo, lo, lo + Seconds(300));
    LagRunAppend(w, front, LastOfRun(w, tenant), lo, lo + Seconds(300));
  }

  lemma LastEvidenceSplits(w: World, tenant: Id, lo: Time, u: World, v: World)
    requires SetsKeys(w, tenant) && Related(u, v)
    requires WindowOpen(u, FirstOfWindow(w, tenant, lo), w.now + 3) && u.now == w.now + 3
    requires u.db.tenants == w.db.tenants && u.db.evidences == BothOfWindow(w, tenant, lo)
    ensures
      var ts := LastOfRun(w, tenant);
      && MeetsLapsedKey(v, ts)
      && AggregateWith(u, Found(u, ts.step.call, ts.at), ts.step.call, ts.at).1.Aggregated?
  {
    LastEvidenceMeetsKey(u, FirstOfWindow(w, tenant, lo), LastOfRun(w, tenant), lo);
    MeetingInBoth(u, v, LastOfRun(w, tenant));
  }

  lemma LagRunAppend(w: World, run: seq<TimedStep>, ts: TimedStep, lo: Time, hi: Time)
    requires LagRun(w, run, lo, hi) && LagWithin(After(w, run), ts, lo, hi)
    ensures LagRun(w, run + [ts], lo, hi)
  {
    assert (run + [ts])[..|run|] == run;
  }

  lemma LapsedKeySplitsAfter(w: World, front: seq<TimedStep>, ts: TimedStep)
    requires Initial(w) && OnTimeForever(w, front) && MeetsLapsedKey(AfterForever(w, MatchingRun(w, front)), ts)
    requires
      var u := After(w, front);
      AggregateWith(u, Found(u, ts.step.call, ts.at), ts.step.call, ts.at).1.Aggregated?
    ensures
      var run, before := front + [ts], After(w, front).db.decisions.Keys;
      && AfterForever(w, MatchingRun(w, run)).db.decisions.Keys == before
      && After(w, run).db.decisions.Keys == before + {ts.step.call.newId}
  {
    assert (front + [ts])[..|front|] == front;
    LapsedKeySplitsWindow(w, front + [ts]);
  }

  lemma MeetingInBoth(u: World, v: World, ts: TimedStep)
    requires u == v.(index := u.index) && MeetsLapsedKey(u, ts)
    requires forall k | k in u.index :: k in v.index && v.index[k] == u.index[k]
    ensures MeetsLapsedKey(v, ts)
  {
  }

  /** Evidence captured at the window's end, with a lag 300 s longer, comes upon the key as it lapses, and commits. */
  lemma LastEvidenceMeetsKey(w: World, first: Evidence, ts: TimedStep, lo: Time)
    requires w.now < ts.at && WindowOpen(w, first, first.capturedAt + lo) && SetsKeys(w, first.tenant)
    requires ts.step == AggregateStep(AggregateCall(1, 1, NoFault)) && 1 in w.db.evidences
    requires
      var last := w.db.evidences[1];
      && KeyOfEvidence(last) == KeyOfEvidence(first)
      && last.capturedAt == first.capturedAt + Seconds(w.db.tenants[first.tenant].windowSecs)
      && ts.at == last.capturedAt + lo + Seconds(300)
    ensures MeetsLapsedKey(w, ts)
    ensures AggregateWith(w, Found(w, ts.step.call, ts.at), ts.step.call, ts.at).1.Aggregated?
  {
  }

  lemma {:induction false} LagRunGrows(w: World, run: seq<TimedStep>, lo: Time, hi: Time, more: Time)
    requires LagRun(w, run, lo, hi) && hi <= more
    ensures LagRun(w, run, lo, more)
  {
    if |run| > 0 {
      LagRunGrows(w, run[..|run| - 1], lo, hi, more);
    }
  }

  /** Where no tenant can set a key there are no decisions, and no key ever lapses too soon. */
  lemma {:induction false} WithoutKeysAllRunsAreOnTime(w: World, run: seq<TimedStep>)
    requires Initial(w) && forall tenant :: !SetsKeys(w, tenant)
    ensures OnTimeRun(w, run) && After(w, run).db.tenants == w.db.tenants
  {
    if |run| > 0 {
      var front := run[..|run| - 1];
      WithoutKeysAllRunsAreOnTime(w, front);
      BooksAlwaysBalance(w, front);
      NextKeepsIdentity(After(w, front), run[|run| - 1]);
      var db := After(w, front).db;
      forall did | did in db.decisions ensures SetsKeys(w, db.decisions[did].tenant) {
      }
    }
  }

  /**
   The bound of 300 s is tight. Expiry leaves the rows of every run with lags in this interval alone if and only if the
   interval is shorter than 300 s, or no tenant's window is long enough to set a key at all.
   */
  lemma {:induction false} LagBoundIff(w: World, lo: Time, hi: Time)
    requires Initial(w)
    ensures
      (forall run | LagRun(w, run, lo, hi) :: After(w, run).db == AfterForever(w, MatchingRun(w, run)).db)
      <==> hi - lo < Seconds(300) || forall tenant :: !SetsKeys(w, tenant)
  {
    if hi - lo < Seconds(300) || forall tenant :: !SetsKeys(w, tenant) {
      forall run | LagRun(w, run, lo, hi) ensures After(w, run).db == AfterForever(w, MatchingRun(w, run)).db {
        if hi - lo < Seconds(300) {
          PromptRunsAreOnTime(w, run, lo, hi);
        } else {
          WithoutKeysAllRunsAreOnTime(w, run);
        }
        OnTimeRunsAgree(w, run);
      }
    } else {
      var tenant :| SetsKeys(w, tenant);
      var run := SpreadOf300SecondsSplitsWindow(w, tenant, lo);
      LagRunGrows(w, run, lo, lo + Seconds(300), hi);
    }
  }
}
