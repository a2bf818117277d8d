/**
 The stream consumer: messages are delivered in batches, each becomes a task with bounded retries, an
 attempt inserts an Evidence row under a uniqueness constraint, and a message ends acknowledged or, after
 its last retry, on the dead-letter stream.
 */
module Analyzer {
  import opened Domain
  import opened Sums

  const MAX_RETRIES := 3
  const BATCH := 10

  /******* State *******/

  /** The fields of an ingest message that its evidence is made of. */
  datatype Message = Message(ingestion: Id, tenant: Id, camera: Id, region: Option<Id>, capturedAt: Time)

  /**
   Where a message is. A dropped one was delivered but its task was never queued; a lost one's retry could not be
   queued, or it could not be dead-lettered or acknowledged after its last attempt.
   */
  datatype Stage = Waiting | InFlight(retries: nat) | Dropped | Done | Lost

  /** An Evidence row and the message that it came from. */
  datatype Row = Row(evidence: Id, message: nat, tenant: Id, ingestion: Id, severity: int)

  /** Messages are numbered by their place in the stream; the first `delivered` have been read by the group. */
  datatype State = State(
    messages: seq<Message>,
    stages: seq<Stage>,
    delivered: nat,
    rows: seq<Row>,
    acked: set<nat>,
    dlq: seq<nat>,
    dispatched: seq<Id>,
    attempts: seq<nat>,
    spoilt: set<nat>)

  function Initial(): State {
    State([], [], 0, [], {}, [], [], [], {})
  }

  /******* Steps *******/

  /** What one attempt runs into; `evidence` and `severity` are those of the row it would insert. */
  datatype Outcome =
    | FailsBeforeCommit
    | AckFails(evidence: Id, severity: int)
    | DispatchFails(evidence: Id, severity: int)
    | Succeeds(evidence: Id, severity: int)

  /**
   What handling a failed attempt runs into: queueing the retry raises or, after the last one, writing the dead letter
   or acknowledging the message does.
   */
  datatype Handling = Handled | RetryFails | DlqWriteFails | DlqAckFails

  datatype Step =
    | Arrive(message: Message)
    | Deliver(count: nat, queued: nat)
    | Attempt(index: nat, outcome: Outcome, handling: Handling)

  predicate Taken(rows: seq<Row>, tenant: Id, ingestion: Id) {
    exists r | r in rows :: r.tenant == tenant && r.ingestion == ingestion
  }

  predicate UsedId(rows: seq<Row>, evidence: Id) {
    exists r | r in rows :: r.evidence == evidence
  }

  /** UUIDs of evidence are not reused. */
  predicate Enabled(s: State, step: Step) {
    match step
    case Arrive(_) => true
    case Deliver(count, queued) =>
      queued <= count <= BATCH && s.delivered + count <= |s.messages| == |s.stages|
    case Attempt(m, outcome, _) =>
      && m < |s.messages| == |s.stages| == |s.attempts| && s.stages[m].InFlight?
      && (outcome.FailsBeforeCommit? || !UsedId(s.rows, outcome.evidence))
  }

  /** The attempt inserts its row: the unique constraint lets only the first one of an ingestion through. */
  predicate Commits(s: State, m: nat, outcome: Outcome)
    requires m < |s.messages|
  {
    !outcome.FailsBeforeCommit? && !Taken(s.rows, s.messages[m].tenant, s.messages[m].ingestion)
  }

  /** The first `queued` of the newly delivered messages become tasks, the others are dropped. */
  function StagesDelivered(stages: seq<Stage>, delivered: nat, count: nat, queued: nat): (r: seq<Stage>)
    requires queued <= count && delivered + count <= |stages|
    ensures |r| == |stages|
  {
    seq(|stages|, i requires 0 <= i < |stages| =>
      if i < delivered || delivered + count <= i then stages[i]
      else if i < delivered + queued then InFlight(0) else Dropped)
  }

  /** The stage after an attempt with `retries` retries behind it. */
  function StageAfter(retries: nat, succeeded: bool, handling: Handling): Stage {
    if succeeded then Done
    else if retries < MAX_RETRIES then if handling == RetryFails then Lost else InFlight(retries + 1)
    else if handling == DlqWriteFails || handling == DlqAckFails then Lost
    else Done
  }

  function Attempted(s: State, m: nat, outcome: Outcome, handling: Handling): State
    requires Enabled(s, Attempt(m, outcome, handling))
  {
    var msg := s.messages[m];
    var commits := Commits(s, m, outcome);
    var succeeded := commits && outcome.Succeeds?;
    var last := s.stages[m].retries >= MAX_RETRIES;
    var deadLettered := !succeeded && last && handling != DlqWriteFails;
    s.(stages := s.stages[m := StageAfter(s.stages[m].retries, succeeded, handling)],
       attempts := s.attempts[m := s.attempts[m] + 1],
       rows := if commits then s.rows + [Row(outcome.evidence, m, msg.tenant, msg.ingestion, outcome.severity)]
         else s.rows,
       acked :=
         if (commits && !outcome.AckFails?) || (deadLettered && handling != DlqAckFails) then s.acked + {m}
           else s.acked,
       dispatched := if succeeded then s.dispatched + [outcome.evidence] else s.dispatched,
       dlq := if deadLettered then s.dlq + [m] else s.dlq,
       spoilt := if commits && !succeeded then s.spoilt + {m} else s.spoilt)
  }

  function Next(s: State, step: Step): State {
    if !Enabled(s, step) then s
    else
      match step
      case Arrive(msg) =>
        s.(messages := s.messages + [msg], stages := s.stages + [Waiting], attempts := s.attempts + [0])
      case Deliver(count, queued) =>
        s.(stages := StagesDelivered(s.stages, s.delivered, count, queued), delivered := s.delivered + count)
      case Attempt(m, outcome, handling) => Attempted(s, m, outcome, handling)
  }

  function After(run: seq<Step>): State {
    if |run| == 0 then Initial() else Next(After(run[..|run| - 1]), run[|run| - 1])
  }

  /******* What every run keeps *******/

  /** The message has an Evidence row of its own. */
  ghost predicate HasRow(s: State, m: nat) {
    exists i | 0 <= i < |s.rows| :: s.rows[i].message == m
  }

  ghost predicate RowSound(s: State, i: nat)
    requires i < |s.rows|
  {
    var r := s.rows[i];
    && r.message < |s.messages|
    && r.tenant == s.messages[r.message].tenant && r.ingestion == s.messages[r.message].ingestion
    && (r.evidence in s.dispatched <==> r.message !in s.spoilt)
  }

  /** No two rows share an id, a message or a (tenant, ingestion_id). */
  ghost predicate RowsUnique(rows: seq<Row>) {
    forall i, j | 0 <= i < j < |rows| ::
      && rows[i].evidence != rows[j].evidence && rows[i].message != rows[j].message
      && !(rows[i].tenant == rows[j].tenant && rows[i].ingestion == rows[j].ingestion)
  }

  /** What the stage of a message says about its row, its dead letter, its acknowledgement and its attempts. */
  ghost predicate MessageSound(s: State, m: nat)
    requires m < |s.messages| == |s.stages| == |s.attempts|
  {
    && (s.stages[m].Waiting? <==> s.delivered <= m)
    && (m in s.spoilt ==> HasRow(s, m))
    && match s.stages[m]
       case Waiting => !HasRow(s, m) && m !in s.dlq && s.attempts[m] == 0
       case Dropped => !HasRow(s, m) && m !in s.dlq && s.attempts[m] == 0
       case InFlight(retries) =>
         && retries <= MAX_RETRIES && s.attempts[m] == retries && m !in s.dlq
         && (HasRow(s, m) ==> m in s.spoilt)
       case Done =>
         && 1 <= s.attempts[m] <= MAX_RETRIES + 1 && m in s.acked
         && (HasRow(s, m) || m in s.dlq)
         && (HasRow(s, m) && m in s.dlq <==> m in s.spoilt)
       case Lost => 1 <= s.attempts[m] <= MAX_RETRIES + 1 && (HasRow(s, m) ==> m in s.spoilt)
  }

  ghost predicate Sound(s: State) {
    && |s.messages| == |s.stages| == |s.attempts| && s.delivered <= |s.messages|
    && (forall i | 0 <= i < |s.rows| :: RowSound(s, i)) && RowsUnique(s.rows)
    && (forall e | e in s.dispatched :: UsedId(s.rows, e))
    && (forall m | 0 <= m < |s.messages| :: MessageSound(s, m))
    && (forall m | m in s.dlq || m in s.spoilt :: m < |s.messages|)
    && (forall i, j | 0 <= i < j < |s.dlq| :: s.dlq[i] != s.dlq[j])
    && (forall i, j | 0 <= i < j < |s.dispatched| :: s.dispatched[i] != s.dispatched[j])
  }

  lemma ArriveKeepsSound(s: State, msg: Message)
    requires Sound(s)
    ensures Sound(Next(s, Arrive(msg)))
  {
    var s' := Next(s, Arrive(msg));
    forall i | 0 <= i < |s'.rows| ensures RowSound(s', i) && s'.rows[i].message < |s.messages| {
      assert RowSound(s, i);
    }
    forall m | 0 <= m < |s'.messages| ensures MessageSound(s', m) {
      if m < |s.messages| {
        assert MessageSound(s, m);
        assert HasRow(s', m) <==> HasRow(s, m);
      }
    }
  }

  lemma DeliverKeepsSound(s: State, count: nat, queued: nat)
    requires Sound(s) && Enabled(s, Deliver(count, queued))
    ensures Sound(Next(s, Deliver(count, queued)))
  {
    var s' := Next(s, Deliver(count, queued));
    forall i | 0 <= i < |s'.rows| ensures RowSound(s', i) {
      assert RowSound(s, i);
    }
    forall m | 0 <= m < |s'.messages| ensures MessageSound(s', m) {
      assert MessageSound(s, m);
      assert HasRow(s', m) <==> HasRow(s, m);
    }
  }

  /** The rows after an attempt: at most one more, of the attempt's message. */
  lemma RowsAfterAttempt(s: State, m: nat, outcome: Outcome, handling: Handling)
    requires Sound(s) && Enabled(s, Attempt(m, outcome, handling))
    ensures
      var s' := Attempted(s, m, outcome, handling);
      && RowsUnique(s'.rows)
      && (Commits(s, m, outcome) ==> !HasRow(s, m))
      && (forall k | 0 <= k < |s.messages| :: HasRow(s', k) <==> HasRow(s, k) || (k == m && Commits(s, m, outcome)))
  {
    var s' := Attempted(s, m, outcome, handling);
    if Commits(s, m, outcome) {
      forall i | 0 <= i < |s.rows| ensures s.rows[i].message != m && s.rows[i].evidence != outcome.evidence {
        assert RowSound(s, i);
        assert s.rows[i] in s.rows;
      }
      forall i, j | 0 <= i < j < |s'.rows|
        ensures s'.rows[i].evidence != s'.rows[j].evidence && s'.rows[i].message != s'.rows[j].message
        ensures !(s'.rows[i].tenant == s'.rows[j].tenant && s'.rows[i].ingestion == s'.rows[j].ingestion)
      {
        assert s.rows[i] in s.rows;
      }
      forall k | 0 <= k < |s.messages| ensures HasRow(s', k) <==> HasRow(s, k) || k == m {
        assert s'.rows[|s.rows|].message == m;
        if HasRow(s, k) {
          var i :| 0 <= i < |s.rows| && s.rows[i].message == k;
          assert s'.rows[i].message == k;
        }
      }
    }
  }

  lemma AttemptKeepsRows(s: State, m: nat, outcome: Outcome, handling: Handling, i: nat)
    requires Sound(s) && Enabled(s, Attempt(m, outcome, handling))
    requires i < |Attempted(s, m, outcome, handling).rows|
    ensures RowSound(Attempted(s, m, outcome, handling), i)
  {
    RowsAfterAttempt(s, m, outcome, handling);
    assert MessageSound(s, m);
    if i < |s.rows| {
      assert RowSound(s, i);
      assert s.rows[i] in s.rows;
      assert HasRow(s, s.rows[i].message);
    }
  }

  lemma AttemptKeepsSound(s: State, m: nat, outcome: Outcome, handling: Handling)
    requires Sound(s) && Enabled(s, Attempt(m, outcome, handling))
    ensures Sound(Attempted(s, m, outcome, handling))
  {
    var s' := Attempted(s, m, outcome, handling);
    RowsAfterAttempt(s, m, outcome, handling);
    forall i | 0 <= i < |s'.rows| ensures RowSound(s', i) {
      AttemptKeepsRows(s, m, outcome, handling, i);
    }
    assert MessageSound(s, m);
    forall k | 0 <= k < |s'.messages| ensures MessageSound(s', k) {
      assert MessageSound(s, k);
      AttemptKeepsMessage(s, m, outcome, handling, k);
    }
    forall e | e in s'.dispatched ensures UsedId(s'.rows, e) {
      if e in s.dispatched {
        assert UsedId(s.rows, e);
        var r :| r in s.rows && r.evidence == e;
        assert r in s'.rows;
      } else {
        assert s'.rows[|s.rows|] in s'.rows;
      }
    }
  }

  lemma AttemptKeepsMessage(s: State, m: nat, outcome: Outcome, handling: Handling, k: nat)
    requires Sound(s) && Enabled(s, Attempt(m, outcome, handling)) && k < |s.messages|
    ensures MessageSound(Attempted(s, m, outcome, handling), k)
  {
    RowsAfterAttempt(s, m, outcome, handling);
    assert MessageSound(s, k) && MessageSound(s, m);
  }

  /**
   In every run no two Evidence rows share (tenant, ingestion_id), whatever fails after a commit; a message
   is attempted at most 1 + max_retries times; when it is done it is acknowledged, it is in Evidence or on
   the dead-letter stream, and in both exactly if one of its attempts failed after its own commit.
   */
  lemma {:induction false} AlwaysSound(run: seq<Step>)
    ensures Sound(After(run))
  {
    if |run| > 0 {
      var before, step := After(run[..|run| - 1]), run[|run| - 1];
      AlwaysSound(run[..|run| - 1]);
      if Enabled(before, step) {
        match step
        case Arrive(msg) => ArriveKeepsSound(before, msg);
        case Deliver(count, queued) => DeliverKeepsSound(before, count, queued);
        case Attempt(m, outcome, handling) => AttemptKeepsSound(before, m, outcome, handling);
      }
    }
  }

  /******* Termination *******/

  /** Attempts that a message may still have. */
  function AttemptsLeft(stage: Stage): int {
    if stage.InFlight? && stage.retries <= MAX_RETRIES then MAX_RETRIES + 1 - stage.retries else 0
  }

  function Remaining(s: State): int {
    SumBy(s.stages, AttemptsLeft)
  }

  lemma {:induction false} SumUpdated(stages: seq<Stage>, m: nat, stage: Stage)
    requires m < |stages|
    ensures
      SumBy(stages[m := stage], AttemptsLeft)
      == SumBy(stages, AttemptsLeft) - AttemptsLeft(stages[m]) + AttemptsLeft(stage)
  {
    var n := |stages| - 1;
    if m == n {
      assert stages[m := stage][..n] == stages[..n];
    } else {
      SumUpdated(stages[..n], m, stage);
      assert stages[m := stage][..n] == stages[..n][m := stage];
    }
  }

  /** Every attempt uses one up, so the delivered messages are settled after finitely many attempts. */
  lemma AttemptsRunOut(run: seq<Step>, m: nat, outcome: Outcome, handling: Handling)
    requires Enabled(After(run), Attempt(m, outcome, handling))
    ensures Remaining(Next(After(run), Attempt(m, outcome, handling))) < Remaining(After(run))
  {
    var s := After(run);
    AlwaysSound(run);
    assert MessageSound(s, m);
    SumUpdated(s.stages, m, Attempted(s, m, outcome, handling).stages[m]);
  }

  /******* Every message ends in one place *******/

  /** The attempt commits its row and fails afterwards. */
  ghost predicate FailsAfterCommit(s: State, step: Step) {
    step.Attempt? && Enabled(s, step) && Commits(s, step.index, step.outcome) && !step.outcome.Succeeds?
  }

  ghost predicate CleanRun(run: seq<Step>) {
    |run| == 0 || (CleanRun(run[..|run| - 1]) && !FailsAfterCommit(After(run[..|run| - 1]), run[|run| - 1]))
  }

  /** The k-th step of the run is an attempt of the message that commits its row and fails afterwards. */
  ghost predicate SpoiltAt(run: seq<Step>, k: nat, m: nat) {
    k < |run| && FailsAfterCommit(After(run[..k]), run[k]) && run[k].index == m
  }

  /** The spoilt messages are those of which an attempt of the run failed after its commit. */
  lemma {:induction false} SpoiltIff(run: seq<Step>, m: nat)
    ensures m in After(run).spoilt <==> exists k: nat :: SpoiltAt(run, k, m)
  {
    if |run| > 0 {
      var n := |run| - 1;
      SpoiltIff(run[..n], m);
      forall k: nat | k < n ensures SpoiltAt(run, k, m) <==> SpoiltAt(run[..n], k, m) {
        assert run[..n][..k] == run[..k];
      }
      assert m in After(run).spoilt <==> m in After(run[..n]).spoilt || SpoiltAt(run, n, m);
      assert forall k: nat | SpoiltAt(run, k, m) :: k < n || k == n;
      assert forall k: nat | SpoiltAt(run[..n], k, m) :: k < n;
    }
  }

  lemma {:induction false} CleanRunSpoilsNothing(run: seq<Step>)
    requires CleanRun(run)
    ensures After(run).spoilt == {}
  {
    if |run| > 0 {
      CleanRunSpoilsNothing(run[..|run| - 1]);
    }
  }

  /**
   In every run a message that is done is acknowledged, and in exactly one of Evidence and the dead-letter stream if and
   only if none of the run's attempts of it failed after its commit.
   */
  lemma {:induction false} DoneInOnePlaceIff(run: seq<Step>, m: nat)
    requires m < |After(run).stages| && After(run).stages[m].Done?
    ensures m in After(run).acked
    ensures (HasRow(After(run), m) <==> m !in After(run).dlq) <==> !exists k: nat :: SpoiltAt(run, k, m)
  {
    AlwaysSound(run);
    assert MessageSound(After(run), m);
    SpoiltIff(run, m);
  }

  /**
   If no attempt of the run fails after its commit, every message that is done is in exactly one of Evidence and the
   dead-letter stream, and nothing else is in Evidence.
   */
  lemma DoneMessagesAreInOnePlace(run: seq<Step>, m: nat)
    requires CleanRun(run) && m < |After(run).stages|
    ensures After(run).stages[m].Done? ==> (HasRow(After(run), m) <==> m !in After(run).dlq) && m in After(run).acked
    ensures HasRow(After(run), m) ==> After(run).stages[m].Done?
  {
    AlwaysSound(run);
    CleanRunSpoilsNothing(run);
    assert MessageSound(After(run), m);
  }

  /**
   Evidence of an attempt that failed after its commit is never handed to aggregation: its retries cannot insert
   it again.
   */
  lemma {:induction false} SpoiltEvidenceIsNeverDispatched(run: seq<Step>, i: nat)
    requires i < |After(run).rows|
    ensures
      var row := After(run).rows[i];
      (exists k: nat :: SpoiltAt(run, k, row.message)) <==> row.evidence !in After(run).dispatched
  {
    AlwaysSound(run);
    assert RowSound(After(run), i);
    SpoiltIff(run, After(run).rows[i].message);
  }

  lemma AfterSnoc(run: seq<Step>, step: Step)
    ensures After(run + [step]) == Next(After(run), step)
  {
    assert (run + [step])[..|run|] == run;
  }

  /** A retry of a message whose row is already there: nothing but the retry counter moves. */
  lemma RetryAfterSpoil(s: State, msg: Message, outcome: Outcome)
    requires s.messages == [msg] && |s.stages| == |s.attempts| == 1
    requires s.stages[0].InFlight? && s.stages[0].retries < MAX_RETRIES
    requires Taken(s.rows, msg.tenant, msg.ingestion)
    requires !outcome.FailsBeforeCommit? ==> !UsedId(s.rows, outcome.evidence)
    ensures
      Next(s, Attempt(0, outcome, Handled))
      == s.(stages := [InFlight(s.stages[0].retries + 1)], attempts := [s.attempts[0] + 1])
  {
  }

  /**
   One failure of the acknowledgement after the commit: the message ends in Evidence and on the dead-letter
   stream.
   */
  lemma AckFailureDuplicates(msg: Message) returns (run: seq<Step>)
    ensures
      var s := After(run);
      s.stages == [Done] && HasRow(s, 0) && s.dlq == [0] && s.dispatched == []
  {
    var spoil, retry := Attempt(0, AckFails(0, 1), Handled), Attempt(0, Succeeds(1, 1), Handled);
    var delivered := [Arrive(msg)] + [Deliver(1, 1)];
    AfterSnoc([], Arrive(msg));
    AfterSnoc([Arrive(msg)], Deliver(1, 1));
    AfterSnoc(delivered, spoil);
    var s := After(delivered + [spoil]);
    assert After(delivered).stages == [InFlight(0)];
    assert s.rows == [Row(0, 0, msg.tenant, msg.ingestion, 1)] && s.stages == [InFlight(1)];
    assert s.rows[0] in s.rows;
    AfterSnoc(delivered + [spoil], retry);
    RetryAfterSpoil(s, msg, Succeeds(1, 1));
    AfterSnoc(delivered + [spoil] + [retry], retry);
    RetryAfterSpoil(Next(s, retry), msg, Succeeds(1, 1));
    run := delivered + [spoil] + [retry] + [retry] + [retry];
    AfterSnoc(delivered + [spoil] + [retry] + [retry], retry);
    assert After(run).rows == s.rows;
  }

  /******* The worker *******/

  class Worker {
    var messages: seq<Message>
    var stages: seq<Stage>
    var delivered: nat
    var rows: seq<Row>
    var acked: set<nat>
    var dlq: seq<nat>
    var dispatched: seq<Id>
    ghost var attempts: seq<nat>
    ghost var spoilt: set<nat>

    ghost function Model(): State
      reads this
    {
      State.State(messages, stages, delivered, rows, acked, dlq, dispatched, attempts, spoilt)
    }

    constructor ()
      ensures Model() == Initial()
    {
      messages, stages, delivered, rows, acked, dlq, dispatched := [], [], 0, [], {}, [], [];
      attempts, spoilt := [], {};
    }

    /**
     Reads a batch and queues a task per message. When queueing the `brokenAt`-th task raises, the rest of
     the batch has been delivered but is dropped.
     */
    method ProcessIngestStreamBatch(brokenAt: Option<nat>) returns (processed: nat)
      requires Sound(Model())
      modifies this`stages, this`delivered
      ensures
        var available := old(|messages| - delivered);
        var count := if available < 10 then available else 10;
        && processed == (if brokenAt.Some? && brokenAt.value < count then brokenAt.value else count)
        && Model() == Next(old(Model()), Deliver(count, processed))
    {
      var count := |messages| - delivered;
      if BATCH < count {
        count := BATCH;
      }
      processed := 0;
      var stages' := stages;
      var i := 0;
      while i < count
        invariant 0 <= i <= count
        invariant processed == if brokenAt.Some? && brokenAt.value < i then brokenAt.value else i
        invariant stages' == StagesDelivered(stages, delivered, i, processed)
      {
        if brokenAt.Some? && brokenAt.value <= i {
          stages' := stages'[delivered + i := Dropped];
        } else {
          stages' := stages'[delivered + i := InFlight(0)];
          processed := processed + 1;
        }
        i := i + 1;
      }
      stages := stages';
      delivered := delivered + count;
    }

    /** One analysis: the row, its acknowledgement and its dispatch; false when it raises. */
    method AnalyzeMessage(m: nat, outcome: Outcome) returns (ok: bool)
      requires m < |messages|
      modifies this`rows, this`acked, this`dispatched, this`spoilt
      ensures ok <==> Commits(old(Model()), m, outcome) && outcome.Succeeds?
      ensures
        var commits, msg := Commits(old(Model()), m, outcome), messages[m];
        && rows == (if commits
            then old(rows) + [Row(outcome.evidence, m, msg.tenant, msg.ingestion, outcome.severity)] else old(rows))
        && acked == (if commits && !outcome.AckFails? then old(acked) + {m} else old(acked))
        && dispatched == (if ok then old(dispatched) + [outcome.evidence] else old(dispatched))
        && spoilt == (if commits && !ok then old(spoilt) + {m} else old(spoilt))
    {
      if outcome.FailsBeforeCommit? {
        return false;
      }
      var msg := messages[m];
      if exists r | r in rows :: r.tenant == msg.tenant && r.ingestion == msg.ingestion {
        assert Taken(rows, msg.tenant, msg.ingestion);
        return false;
      }
      assert !Taken(rows, msg.tenant, msg.ingestion);
      rows := rows + [Row(outcome.evidence, m, msg.tenant, msg.ingestion, outcome.severity)];
      if outcome.AckFails? {
        spoilt := spoilt + {m};
        return false;
      }
      acked := acked + {m};
      if outcome.DispatchFails? {
        spoilt := spoilt + {m};
        return false;
      }
      dispatched := dispatched + [outcome.evidence];
      return true;
    }

    /**
     One execution of a message: analyse, and on a failure retry or, after the last retry, dead-letter and
     acknowledge.
     */
    method AnalyzeIngestMessage(m: nat, outcome: Outcome, handling: Handling)
      requires Enabled(Model(), Attempt(m, outcome, handling))
      modifies this
      ensures Model() == Next(old(Model()), Attempt(m, outcome, handling))
    {
      var retries := stages[m].retries;
      var ok := AnalyzeMessage(m, outcome);
      attempts := attempts[m := attempts[m] + 1];
      if ok {
        stages := stages[m := Done];
      } else if retries >= MAX_RETRIES {
        if handling == DlqWriteFails {
          stages := stages[m := Lost];
          return;
        }
        dlq := dlq + [m];
        if handling == DlqAckFails {
          stages := stages[m := Lost];
          return;
        }
        acked := acked + {m};
        stages := stages[m := Done];
      } else {
        stages := stages[m := if handling == RetryFails then Lost else InFlight(retries + 1)];
      }
    }
  }
}
