/**
 The whole pipeline: a job queued by ingestion becomes a message of the analyzer, an analysis that commits
 becomes evidence in the database, and evidence that is dispatched is aggregated by a task that runs once.
 */
module Pipeline {
  import opened Domain
  import opened Sums
  import Analyzer
  import Bookkeeping
  import Ingestion
  import Lifecycle

  /** `ran` holds the evidences whose aggregate task has run, `folded` those for which it replied with a decision. */
  datatype State = State(
    ingestion: Ingestion.State,
    analyzer: Analyzer.State,
    world: Lifecycle.World,
    ran: set<Id>,
    folded: seq<Id>)

  datatype Action =
    | Ingest(action: Ingestion.Action)
    | Consume(count: nat, queued: nat)
    | Analyze(index: nat, outcome: Analyzer.Outcome, handling: Analyzer.Handling)
    | Aggregate(call: Lifecycle.AggregateCall)
    | Triage(step: Lifecycle.Step)

  datatype Step = Step(action: Action, at: Time)

  function MessageOf(job: Ingestion.Job): Analyzer.Message {
    var r := job.request;
    Analyzer.Message(r.ingestion, r.tenant, r.camera, r.region, r.capturedAt)
  }

  function EvidenceOf(m: Analyzer.Message, severity: int): Lifecycle.Evidence {
    Lifecycle.Evidence(m.tenant, m.camera, m.region, m.capturedAt, severity)
  }

  /** The analyzer's part of an action that it takes part in. */
  function AnalyzerStep(action: Action): Analyzer.Step
    requires action.Consume? || action.Analyze?
  {
    if action.Consume? then Analyzer.Deliver(action.count, action.queued)
    else Analyzer.Attempt(action.index, action.outcome, action.handling)
  }

  /** The evidence that an attempt inserts, if it commits. */
  function Inserted(s: Analyzer.State, action: Action): Option<(Id, Lifecycle.Evidence)>
    requires action.Analyze? && Analyzer.Enabled(s, AnalyzerStep(action))
  {
    if Analyzer.Commits(s, action.index, action.outcome)
    then Some((action.outcome.evidence, EvidenceOf(s.messages[action.index], action.outcome.severity)))
    else None
  }

  /** The world's part of an action, if it takes part. */
  function WorldStep(s: State, action: Action): Option<Lifecycle.Step>
    requires action.Analyze? ==> Analyzer.Enabled(s.analyzer, AnalyzerStep(action))
  {
    match action
    case Analyze(_, _, _) =>
      var inserted := Inserted(s.analyzer, action);
      if inserted.Some? then Some(Lifecycle.RecordEvidenceStep(inserted.value.0, inserted.value.1)) else None
    case Aggregate(call) => Some(Lifecycle.AggregateStep(call))
    case Triage(step) => Some(step)
    case _ => None
  }

  /** A dispatched evidence has one aggregate task; triage resolves decisions and keys may be lost. */
  ghost predicate TakesPart(s: State, step: Step) {
    match step.action
    case Ingest(action) => Ingestion.Enabled(s.ingestion, Ingestion.Step(action, step.at))
    case Consume(_, _) => Analyzer.Enabled(s.analyzer, AnalyzerStep(step.action))
    case Analyze(_, _, _) => Analyzer.Enabled(s.analyzer, AnalyzerStep(step.action))
    case Aggregate(call) => call.evidence in s.analyzer.dispatched && call.evidence !in s.ran
    case Triage(t) => t.ReadResolveStep? || t.CommitResolveStep? || t.LoseKeyStep?
  }

  ghost predicate Enabled(s: State, step: Step) {
    && TakesPart(s, step)
    && var t := WorldStep(s, step.action);
       t.Some? ==> Lifecycle.Enabled(s.world, Lifecycle.TimedStep(t.value, step.at))
  }

  /** The aggregate task replies with a decision. */
  predicate Folds(w: Lifecycle.World, call: Lifecycle.AggregateCall, at: Time) {
    Lifecycle.AggregateWith(w, Lifecycle.Found(w, call, at), call, at).1.Aggregated?
  }

  ghost function Effect(s: State, step: Step): State
    requires Enabled(s, step)
  {
    var t := WorldStep(s, step.action);
    var world := if t.Some? then Lifecycle.Next(s.world, Lifecycle.TimedStep(t.value, step.at)) else s.world;
    match step.action
    case Ingest(action) =>
      var i := Ingestion.Next(s.ingestion, Ingestion.Step(action, step.at));
      var arrived := |s.ingestion.stream| < |i.stream|;
      s.(ingestion := i,
         analyzer := if arrived
           then Analyzer.Next(s.analyzer, Analyzer.Arrive(MessageOf(i.stream[|i.stream| - 1]))) else s.analyzer)
    case Consume(_, _) => s.(analyzer := Analyzer.Next(s.analyzer, AnalyzerStep(step.action)))
    case Analyze(_, _, _) => s.(analyzer := Analyzer.Next(s.analyzer, AnalyzerStep(step.action)), world := world)
    case Aggregate(call) =>
      s.(world := world, ran := s.ran + {call.evidence},
         folded := if Folds(s.world, call, step.at) then s.folded + [call.evidence] else s.folded)
    case Triage(_) => s.(world := world)
  }

  ghost function Next(s: State, step: Step): State {
    if Enabled(s, step) then Effect(s, step) else s
  }

  ghost function After(s: State, run: seq<Step>): State {
    if |run| == 0 then s else Next(After(s, run[..|run| - 1]), run[|run| - 1])
  }

  ghost predicate Initial(s: State) {
    && Ingestion.Initial(s.ingestion) && s.analyzer == Analyzer.Initial() && Lifecycle.Initial(s.world)
    && s.ran == {} && s.folded == []
  }

  /******* What every run keeps *******/

  /** The stream's messages are the queued jobs, in order. */
  ghost predicate MessagesMatch(s: State) {
    && |s.analyzer.messages| == |s.ingestion.stream|
    && forall i | 0 <= i < |s.ingestion.stream| :: s.analyzer.messages[i] == MessageOf(s.ingestion.stream[i])
  }

  ghost predicate RowMatches(s: State, i: nat)
    requires i < |s.analyzer.rows|
  {
    var r := s.analyzer.rows[i];
    && r.message < |s.analyzer.messages| && r.evidence in s.world.db.evidences
    && s.world.db.evidences[r.evidence] == EvidenceOf(s.analyzer.messages[r.message], r.severity)
  }

  /** The evidences of the database are the analyzer's rows. */
  ghost predicate RowsMatch(s: State) {
    && (forall i | 0 <= i < |s.analyzer.rows| :: RowMatches(s, i))
    && (forall e | e in s.world.db.evidences :: Analyzer.UsedId(s.analyzer.rows, e))
  }

  /** The links are those of the folded evidences, in order, each folded once. */
  ghost predicate LinksMatch(s: State) {
    && |s.world.db.links| == |s.folded| && Distinct(s.folded)
    && (forall i | 0 <= i < |s.folded| :: s.world.db.links[i].evidence == s.folded[i] && s.folded[i] in s.ran)
    && (forall e | e in s.ran :: e in s.analyzer.dispatched)
  }

  ghost predicate Sound(s: State) {
    && Analyzer.Sound(s.analyzer) && Bookkeeping.RowsSound(s.world.db) && Bookkeeping.IndexSound(s.world)
    && MessagesMatch(s) && RowsMatch(s) && LinksMatch(s)
  }

  /** A step of the world other than an aggregate leaves links and evidences alone, or adds one evidence. */
  lemma WorldKeepsLinks(w: Lifecycle.World, step: Lifecycle.Step, at: Time)
    requires Lifecycle.Enabled(w, Lifecycle.TimedStep(step, at)) && !step.AggregateStep?
    ensures
      var w' := Lifecycle.Next(w, Lifecycle.TimedStep(step, at));
      && w'.db.links == w.db.links
      && w'.db.evidences == if step.RecordEvidenceStep? then w.db.evidences[step.evidenceId := step.evidence]
          else w.db.evidences
  {
  }

  /** An aggregate of evidence that is not linked yet adds its link exactly if it replies with a decision. */
  lemma {:induction false} AggregateAddsLink(w: Lifecycle.World, call: Lifecycle.AggregateCall, at: Time)
    requires Lifecycle.Enabled(w, Lifecycle.TimedStep(Lifecycle.AggregateStep(call), at))
    requires forall l | l in w.db.links :: l.evidence != call.evidence
    ensures
      var w' := Lifecycle.Next(w, Lifecycle.TimedStep(Lifecycle.AggregateStep(call), at));
      && w'.db.evidences == w.db.evidences
      && if Folds(w, call, at)
         then
           && |w'.db.links| == |w.db.links| + 1 && w.db.links <= w'.db.links
           && w'.db.links[|w.db.links|].evidence == call.evidence
         else w'.db.links == w.db.links
  {
    var found := Lifecycle.Found(w, call, at);
    Bookkeeping.AggregateIsTransactional(w, found, call, at);
    if Folds(w, call, at) {
      Bookkeeping.CommittedShape(w.db, found, call, at);
    }
  }

  lemma IngestKeepsSound(s: State, step: Step)
    requires Sound(s) && Enabled(s, step) && step.action.Ingest?
    ensures Sound(Next(s, step))
  {
    var s' := Next(s, step);
    var i, i' := s.ingestion, s'.ingestion;
    assert i'.stream == i.stream || (|i'.stream| == |i.stream| + 1 && i'.stream[..|i.stream|] == i.stream);
    if |i.stream| < |i'.stream| {
      Analyzer.ArriveKeepsSound(s.analyzer, MessageOf(i'.stream[|i.stream|]));
    }
    forall k | 0 <= k < |s'.analyzer.rows| ensures RowMatches(s', k) {
      assert RowMatches(s, k);
    }
  }

  lemma {:induction false} AnalyzeKeepsRows(s: State, step: Step)
    requires Sound(s) && Enabled(s, step) && step.action.Analyze?
    ensures RowsMatch(Next(s, step))
  {
    var s' := Next(s, step);
    var rows, rows' := s.analyzer.rows, s'.analyzer.rows;
    var t := WorldStep(s, step.action);
    if t.Some? {
      WorldKeepsLinks(s.world, t.value, step.at);
      assert rows'[|rows|] in rows';
    }
    forall k | 0 <= k < |rows'| ensures RowMatches(s', k) {
      if k < |rows| {
        assert RowMatches(s, k);
        assert rows[k] in rows;
      }
    }
    forall e | e in s'.world.db.evidences ensures Analyzer.UsedId(rows', e) {
      if e in s.world.db.evidences {
        assert Analyzer.UsedId(rows, e);
        var r :| r in rows && r.evidence == e;
        assert r in rows';
      }
    }
  }

  lemma AnalyzeKeepsSound(s: State, step: Step)
    requires Sound(s) && Enabled(s, step) && step.action.Analyze?
    ensures Sound(Next(s, step))
  {
    var a := step.action;
    Analyzer.AttemptKeepsSound(s.analyzer, a.index, a.outcome, a.handling);
    AnalyzeKeepsRows(s, step);
    var t := WorldStep(s, a);
    if t.Some? {
      var ts := Lifecycle.TimedStep(t.value, step.at);
      WorldKeepsLinks(s.world, t.value, step.at);
      Bookkeeping.NextKeepsRows(s.world, ts);
      Bookkeeping.NextKeepsIndex(s.world, ts);
    }
  }

  lemma {:induction false} AggregateKeepsSound(s: State, step: Step)
    requires Sound(s) && Enabled(s, step) && step.action.Aggregate?
    ensures Sound(Next(s, step))
  {
    var s', call := Next(s, step), step.action.call;
    var ts := Lifecycle.TimedStep(Lifecycle.AggregateStep(call), step.at);
    forall l | l in s.world.db.links ensures l.evidence != call.evidence {
      var i :| 0 <= i < |s.folded| && s.world.db.links[i] == l;
    }
    AggregateAddsLink(s.world, call, step.at);
    Bookkeeping.NextKeepsRows(s.world, ts);
    Bookkeeping.NextKeepsIndex(s.world, ts);
    forall k | 0 <= k < |s'.analyzer.rows| ensures RowMatches(s', k) {
      assert RowMatches(s, k);
    }
    forall i | 0 <= i < |s'.folded| ensures s'.world.db.links[i].evidence == s'.folded[i] && s'.folded[i] in s'.ran {
      if i < |s.folded| {
        assert s'.world.db.links[i] == s.world.db.links[i];
      }
    }
  }

  lemma {:induction false} TriageKeepsSound(s: State, step: Step)
    requires Sound(s) && Enabled(s, step) && step.action.Triage?
    ensures Sound(Next(s, step))
  {
    var s', ts := Next(s, step), Lifecycle.TimedStep(step.action.step, step.at);
    WorldKeepsLinks(s.world, step.action.step, step.at);
    Bookkeeping.NextKeepsRows(s.world, ts);
    Bookkeeping.NextKeepsIndex(s.world, ts);
    forall k | 0 <= k < |s'.analyzer.rows| ensures RowMatches(s', k) {
      assert RowMatches(s, k);
    }
  }

  lemma ConsumeKeepsSound(s: State, step: Step)
    requires Sound(s) && Enabled(s, step) && step.action.Consume?
    ensures Sound(Next(s, step))
  {
    var s' := Next(s, step);
    Analyzer.DeliverKeepsSound(s.analyzer, step.action.count, step.action.queued);
    forall k | 0 <= k < |s'.analyzer.rows| ensures RowMatches(s', k) {
      assert RowMatches(s, k);
    }
  }

  lemma {:induction false} AlwaysSound(s: State, run: seq<Step>)
    requires Initial(s)
    ensures Sound(After(s, run))
  {
    if |run| == 0 {
      Analyzer.AlwaysSound([]);
      Bookkeeping.BooksAlwaysBalance(s.world, []);
    } else {
      var before, step := After(s, run[..|run| - 1]), run[|run| - 1];
      AlwaysSound(s, run[..|run| - 1]);
      if Enabled(before, step) {
        match step.action
        case Ingest(_) => IngestKeepsSound(before, step);
        case Consume(_, _) => ConsumeKeepsSound(before, step);
        case Analyze(_, _, _) => AnalyzeKeepsSound(before, step);
        case Aggregate(_) => AggregateKeepsSound(before, step);
        case Triage(_) => TriageKeepsSound(before, step);
      }
    }
  }

  /******* Conservation of messages *******/

  function Waits(a: Analyzer.State): nat -> bool { (m: nat) => m < |a.stages| && a.stages[m].Waiting? }

  function Flies(a: Analyzer.State): nat -> bool { (m: nat) => m < |a.stages| && a.stages[m].InFlight? }

  function Drops(a: Analyzer.State): nat -> bool { (m: nat) => m < |a.stages| && a.stages[m].Dropped? }

  /** Given up without a dead letter: queueing a retry, or the write to the dead-letter stream itself, failed. */
  function Vanishes(a: Analyzer.State): nat -> bool { (m: nat) => m < |a.stages| && a.stages[m].Lost? && m !in a.dlq }

  function DeadLettered(a: Analyzer.State): nat -> bool { (m: nat) => m in a.dlq }

  function Spoils(a: Analyzer.State): nat -> bool { (m: nat) => m in a.spoilt }

  ghost function Stored(a: Analyzer.State): nat -> bool { (m: nat) => Analyzer.HasRow(a, m) }

  lemma {:induction false} CountsBalance(a: Analyzer.State, n: nat)
    requires Analyzer.Sound(a) && n <= |a.messages|
    ensures
      n + Count(n, Spoils(a))
      == Count(n, Waits(a)) + Count(n, Flies(a)) + Count(n, Drops(a)) + Count(n, Vanishes(a))
         + Count(n, DeadLettered(a)) + Count(n, Stored(a))
  {
    if n > 0 {
      CountsBalance(a, n - 1);
      assert Analyzer.MessageSound(a, n - 1);
    }
  }

  function MessageIndex(rows: seq<Analyzer.Row>): (r: seq<nat>)
    ensures |r| == |rows|
  {
    seq(|rows|, i requires 0 <= i < |rows| => rows[i].message)
  }

  /** Dead letters, spoilt messages and rows are counted by message. */
  lemma CountsAreSizes(a: Analyzer.State)
    requires Analyzer.Sound(a)
    ensures Count(|a.messages|, DeadLettered(a)) == |a.dlq|
    ensures Count(|a.messages|, Spoils(a)) == |a.spoilt|
    ensures Count(|a.messages|, Stored(a)) == |a.rows|
  {
    DistinctCount(a.dlq, |a.messages|, DeadLettered(a));
    CountIsSize(|a.messages|, Spoils(a), a.spoilt);
    var ms := MessageIndex(a.rows);
    forall m: nat ensures m in ms <==> m < |a.messages| && Stored(a)(m) {
      if m in ms {
        var i :| 0 <= i < |ms| && ms[i] == m;
        assert Analyzer.RowSound(a, i);
      }
      if Analyzer.HasRow(a, m) {
        var i :| 0 <= i < |a.rows| && a.rows[i].message == m;
        assert ms[i] == m;
      }
    }
    DistinctCount(ms, |a.messages|, Stored(a));
  }

  /**
   Conservation of queued jobs, in every run: a job is waiting, in flight, dropped, vanished, a dead letter or
   Evidence, and it is counted twice exactly if an attempt failed after committing its Evidence.
   */
  lemma QueuedIsConserved(s: State, run: seq<Step>)
    requires Initial(s)
    ensures
      var s' := After(s, run);
      var a, n := s'.analyzer, |s'.ingestion.stream|;
      n + |a.spoilt|
      == Count(n, Waits(a)) + Count(n, Flies(a)) + Count(n, Drops(a)) + Count(n, Vanishes(a)) + |a.dlq| + |a.rows|
  {
    AlwaysSound(s, run);
    var a := After(s, run).analyzer;
    CountsBalance(a, |a.messages|);
    CountsAreSizes(a);
  }

  /**
   Failures only before the evidence commit: every task and retry is queued, and no acknowledgement, dispatch or
   dead letter fails.
   */
  ghost predicate Smooth(s: State, step: Step) {
    match step.action
    case Consume(count, queued) => count == queued
    case Analyze(_, outcome, handling) => (outcome.FailsBeforeCommit? || outcome.Succeeds?) && handling.Handled?
    case _ => true
  }

  ghost predicate SmoothRun(s: State, run: seq<Step>) {
    |run| == 0 || (SmoothRun(s, run[..|run| - 1]) && Smooth(After(s, run[..|run| - 1]), run[|run| - 1]))
  }

  ghost predicate Unspoilt(a: Analyzer.State) {
    a.spoilt == {} && forall i | 0 <= i < |a.stages| :: !a.stages[i].Dropped? && !a.stages[i].Lost?
  }

  lemma {:induction false} SmoothRunIsUnspoilt(s: State, run: seq<Step>)
    requires Initial(s) && SmoothRun(s, run)
    ensures Unspoilt(After(s, run).analyzer)
  {
    if |run| > 0 {
      SmoothRunIsUnspoilt(s, run[..|run| - 1]);
    }
  }

  lemma {:induction false} NothingCounted(n: nat, p: nat -> bool)
    requires forall m: nat | m < n :: !p(m)
    ensures Count(n, p) == 0
  {
    if n > 0 {
      NothingCounted(n - 1, p);
    }
  }

  /**
   With failures only before the commit, queued jobs are the waiting, the in-flight, the dead letters and the
   Evidence rows.
   */
  lemma {:induction false} SmoothRunsConserveQueued(s: State, run: seq<Step>)
    requires Initial(s) && SmoothRun(s, run)
    ensures
      var s' := After(s, run);
      var a, n := s'.analyzer, |s'.ingestion.stream|;
      n == Count(n, Waits(a)) + Count(n, Flies(a)) + |a.dlq| + |a.rows|
  {
    QueuedIsConserved(s, run);
    SmoothRunIsUnspoilt(s, run);
    var a, n := After(s, run).analyzer, |After(s, run).ingestion.stream|;
    NothingCounted(n, Drops(a));
    NothingCounted(n, Vanishes(a));
  }

  /******* What an analysis stores *******/

  /**
   In every run the i-th Evidence row of the analyzer is that of a queued job, with its tenant and ingestion, and the
   database's evidence of its id has the job's tenant, camera, region and capture time, and the row's score.
   */
  lemma {:induction false} EvidenceIsAnalysed(s: State, run: seq<Step>, i: nat)
    requires Initial(s) && i < |After(s, run).analyzer.rows|
    ensures
      var s' := After(s, run);
      var row, db, stream := s'.analyzer.rows[i], s'.world.db, s'.ingestion.stream;
      && row.message < |stream| && row.evidence in db.evidences
      && var r, e := stream[row.message].request, db.evidences[row.evidence];
      && row.tenant == r.tenant && row.ingestion == r.ingestion
      && e.tenant == r.tenant && e.camera == r.camera && e.region == r.region && e.capturedAt == r.capturedAt
      && e.severity == row.severity
  {
    AlwaysSound(s, run);
    var s' := After(s, run);
    assert RowMatches(s', i) && Analyzer.RowSound(s'.analyzer, i);
    assert s'.analyzer.messages[s'.analyzer.rows[i].message]
           == MessageOf(s'.ingestion.stream[s'.analyzer.rows[i].message]);
  }

  /** The score that the analyzer has given the evidence. */
  function ScoreIn(rows: seq<Analyzer.Row>, eid: Id): int {
    if |rows| == 0 then 0
    else if rows[|rows| - 1].evidence == eid then rows[|rows| - 1].severity
    else ScoreIn(rows[..|rows| - 1], eid)
  }

  function ScoreOf(rows: seq<Analyzer.Row>): Id -> int {
    (eid: Id) => ScoreIn(rows, eid)
  }

  lemma {:induction false} ScoreIsOfRow(rows: seq<Analyzer.Row>, i: nat)
    requires i < |rows| && Analyzer.RowsUnique(rows)
    ensures ScoreIn(rows, rows[i].evidence) == rows[i].severity
  {
    if i < |rows| - 1 {
      ScoreIsOfRow(rows[..|rows| - 1], i);
    }
  }

  /** The database's severity of evidence is the score that the analyzer has given it. */
  lemma {:induction false} SeverityIsScore(s: State, run: seq<Step>, eid: Id)
    requires Initial(s) && eid in After(s, run).world.db.evidences
    ensures
      var s' := After(s, run);
      SeverityOfEvidence(s'.world.db)(eid) == ScoreOf(s'.analyzer.rows)(eid)
  {
    AlwaysSound(s, run);
    var rows := After(s, run).analyzer.rows;
    assert Analyzer.UsedId(rows, eid);
    var r :| r in rows && r.evidence == eid;
    var i :| 0 <= i < |rows| && rows[i] == r;
    EvidenceIsAnalysed(s, run, i);
    ScoreIsOfRow(rows, i);
  }

  /******* Conservation of evidence *******/

  /** A list of the decisions without repeats. */
  ghost predicate Lists(dids: seq<Id>, db: Lifecycle.Database) {
    Distinct(dids) && forall did :: did in dids <==> did in db.decisions
  }

  function CountIn(db: Lifecycle.Database): Id -> int {
    (did: Id) => if did in db.decisions then db.decisions[did].evidenceCount else 0
  }

  function SeverityIn(db: Lifecycle.Database): Id -> int {
    (did: Id) => if did in db.decisions then db.decisions[did].cumulativeSeverity else 0
  }

  function SeverityOfEvidence(db: Lifecycle.Database): Id -> int {
    (eid: Id) => Bookkeeping.SeverityOf(db.evidences, eid)
  }

  function LinksOf(links: seq<Lifecycle.Link>): Id -> int {
    (did: Id) => Bookkeeping.LinkCount(links, did)
  }

  function SeverityLinked(links: seq<Lifecycle.Link>, db: Lifecycle.Database): Id -> int {
    (did: Id) => Bookkeeping.LinkedSeverity(links, db.evidences, did)
  }

  /** Every link is counted by exactly one decision. */
  lemma {:induction false} LinksAreShared(dids: seq<Id>, links: seq<Lifecycle.Link>, eids: seq<Id>,
      db: Lifecycle.Database)
    requires Distinct(dids) && |links| == |eids|
    requires forall i | 0 <= i < |links| :: links[i].decision in dids && links[i].evidence == eids[i]
    ensures SumBy(dids, LinksOf(links)) == |links|
    ensures SumBy(dids, SeverityLinked(links, db)) == SumBy(eids, SeverityOfEvidence(db))
  {
    if |links| == 0 {
      SumZero(dids, LinksOf(links));
      SumZero(dids, SeverityLinked(links, db));
    } else {
      var n := |links| - 1;
      LinksAreShared(dids, links[..n], eids[..n], db);
      SumMovesAtOne(dids, LinksOf(links[..n]), LinksOf(links), links[n].decision, 1);
      var severity := SeverityOfEvidence(db)(eids[n]);
      SumMovesAtOne(dids, SeverityLinked(links[..n], db), SeverityLinked(links, db), links[n].decision, severity);
    }
  }

  /**
   Conservation of evidence, in every run: however the decisions are listed, their counters sum to the number
   and to the total of the analyzer's scores of the evidences whose aggregation replied with a decision, each
   aggregated once.
   */
  lemma {:induction false} EvidenceIsConserved(s: State, run: seq<Step>, dids: seq<Id>)
    requires Initial(s) && Lists(dids, After(s, run).world.db)
    ensures
      var s' := After(s, run);
      && Distinct(s'.folded)
      && SumBy(dids, CountIn(s'.world.db)) == |s'.folded|
      && SumBy(dids, SeverityIn(s'.world.db)) == SumBy(s'.folded, ScoreOf(s'.analyzer.rows))
  {
    AlwaysSound(s, run);
    var s' := After(s, run);
    var db := s'.world.db;
    forall i | 0 <= i < |db.links| ensures db.links[i].decision in dids {
      assert db.links[i] in db.links;
      assert Bookkeeping.LinkSound(db, db.links[i]);
    }
    LinksAreShared(dids, db.links, s'.folded, db);
    forall did | did in dids
      ensures CountIn(db)(did) == LinksOf(db.links)(did) && SeverityIn(db)(did) == SeverityLinked(db.links, db)(did) {
      assert Bookkeeping.Counted(db, did);
    }
    SumAgrees(dids, CountIn(db), LinksOf(db.links));
    SumAgrees(dids, SeverityIn(db), SeverityLinked(db.links, db));
    forall eid | eid in s'.folded ensures SeverityOfEvidence(db)(eid) == ScoreOf(s'.analyzer.rows)(eid) {
      var i :| 0 <= i < |s'.folded| && s'.folded[i] == eid;
      assert Bookkeeping.LinkSound(db, db.links[i]);
      SeverityIsScore(s, run, eid);
    }
    SumAgrees(s'.folded, SeverityOfEvidence(db), ScoreOf(s'.analyzer.rows));
  }

  /** The job was queued for this camera, region and capture time. */
  predicate JobBehind(job: Ingestion.Job, e: Lifecycle.Evidence) {
    var r := job.request;
    r.tenant == e.tenant && r.camera == e.camera && r.region == e.region && r.capturedAt == e.capturedAt
  }

  /**
   In every run, all evidence linked to a decision stems from a queued job for the decision's own tenant, camera
   and region.
   */
  lemma {:induction false} LinkedEvidenceWasQueued(s: State, run: seq<Step>, l: Lifecycle.Link)
    requires Initial(s) && l in After(s, run).world.db.links
    ensures
      var s' := After(s, run);
      var db := s'.world.db;
      && l.decision in db.decisions && l.evidence in db.evidences
      && exists job | job in s'.ingestion.stream ::
           && JobBehind(job, db.evidences[l.evidence])
           && Lifecycle.OpenKey(job.request.tenant, job.request.camera, job.request.region)
              == Lifecycle.KeyOfDecision(db.decisions[l.decision])
  {
    AlwaysSound(s, run);
    var s' := After(s, run);
    var db := s'.world.db;
    assert Bookkeeping.LinkSound(db, l);
    assert Analyzer.UsedId(s'.analyzer.rows, l.evidence);
    var r :| r in s'.analyzer.rows && r.evidence == l.evidence;
    var k :| 0 <= k < |s'.analyzer.rows| && s'.analyzer.rows[k] == r;
    assert RowMatches(s', k);
    var job := s'.ingestion.stream[r.message];
    assert job in s'.ingestion.stream && JobBehind(job, db.evidences[l.evidence]);
  }
}
