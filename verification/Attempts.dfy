/**
 What the steps of a run have to do with where a message ends: Evidence rows come from attempts, an attempt that gets to
 its commit leaves evidence of its message's ingestion, a message is dead-lettered after its fourth attempt, and it is
 given up exactly when queueing its task or its retry, or dead-lettering it, fails.
 */
module Attempts {
  import opened Domain
  import opened Analyzer

  /** The k-th step is an attempt of the message. */
  ghost predicate AttemptAt(run: seq<Step>, k: nat, m: nat) {
    k < |run| && run[k].Attempt? && run[k].index == m && Enabled(After(run[..k]), run[k])
  }

  /** Evidence has a row of the message's tenant and ingestion. */
  ghost predicate InEvidence(s: State, m: nat)
    requires m < |s.messages|
  {
    exists i | 0 <= i < |s.rows| ::
      s.rows[i].tenant == s.messages[m].tenant && s.rows[i].ingestion == s.messages[m].ingestion
  }

  /** The attempt does not leave its message done: it raises, or the message's ingestion has a row already. */
  ghost predicate FailsAt(s: State, m: nat, outcome: Outcome)
    requires m < |s.messages|
  {
    !outcome.Succeeds? || InEvidence(s, m)
  }

  lemma TakenIffInEvidence(s: State, m: nat)
    requires m < |s.messages|
    ensures Taken(s.rows, s.messages[m].tenant, s.messages[m].ingestion) <==> InEvidence(s, m)
  {
    if InEvidence(s, m) {
      var i :| 0 <= i < |s.rows|
               && s.rows[i].tenant == s.messages[m].tenant && s.rows[i].ingestion == s.messages[m].ingestion;
      assert s.rows[i] in s.rows;
    }
  }

  /** Messages and rows are only ever added. */
  lemma {:induction false} NextGrows(s: State, step: Step)
    ensures s.messages <= Next(s, step).messages && s.rows <= Next(s, step).rows
  {
  }

  lemma {:induction false} AttemptAtStays(run: seq<Step>, k: nat, m: nat)
    requires |run| > 0
    ensures k < |run| - 1 ==> (AttemptAt(run, k, m) <==> AttemptAt(run[..|run| - 1], k, m))
  {
    if k < |run| - 1 {
      assert run[..|run| - 1][..k] == run[..k];
    }
  }

  /******* Where rows come from *******/

  /** The k-th step is the attempt that inserts the row, with its id and its score. */
  ghost predicate InsertedAt(run: seq<Step>, k: nat, row: Row) {
    && AttemptAt(run, k, row.message) && !run[k].outcome.FailsBeforeCommit?
    && run[k].outcome.evidence == row.evidence && run[k].outcome.severity == row.severity
  }

  /** Every Evidence row is that of an attempt: it has the attempt's id and score. */
  lemma {:induction false} RowsComeFromAttempts(run: seq<Step>, row: Row)
    requires row in After(run).rows
    ensures exists k: nat :: InsertedAt(run, k, row)
  {
    if |run| > 0 {
      var n := |run| - 1;
      if row in After(run[..n]).rows {
        RowsComeFromAttempts(run[..n], row);
        var k: nat :| InsertedAt(run[..n], k, row);
        AttemptAtStays(run, k, row.message);
        assert InsertedAt(run, k, row);
      } else {
        assert InsertedAt(run, n, row);
      }
    }
  }

  lemma {:induction false} EvidenceStays(s: State, step: Step, m: nat)
    requires m < |s.messages| && InEvidence(s, m)
    ensures m < |Next(s, step).messages| && InEvidence(Next(s, step), m)
  {
    NextGrows(s, step);
    var i :| 0 <= i < |s.rows|
             && s.rows[i].tenant == s.messages[m].tenant && s.rows[i].ingestion == s.messages[m].ingestion;
    assert Next(s, step).rows[i] == s.rows[i];
  }

  /** After an attempt that gets to its commit, Evidence has a row of its message's tenant and ingestion, for good. */
  lemma {:induction false} CommittedAttemptsAreKept(run: seq<Step>, k: nat, m: nat)
    requires AttemptAt(run, k, m) && !run[k].outcome.FailsBeforeCommit?
    ensures m < |After(run).messages| && InEvidence(After(run), m)
  {
    var n := |run| - 1;
    var before := After(run[..n]);
    if k < n {
      AttemptAtStays(run, k, m);
      CommittedAttemptsAreKept(run[..n], k, m);
      EvidenceStays(before, run[n], m);
    } else {
      TakenIffInEvidence(before, m);
      if InEvidence(before, m) {
        EvidenceStays(before, run[n], m);
      } else {
        assert After(run).rows[|before.rows|].message == m;
      }
    }
  }

  /******* Attempts and dead letters *******/

  /** Number of attempts of the message. */
  ghost function AttemptsOf(run: seq<Step>, m: nat): nat {
    if |run| == 0 then 0
    else
      var n := |run| - 1;
      AttemptsOf(run[..n], m)
      + if run[n].Attempt? && run[n].index == m && Enabled(After(run[..n]), run[n]) then 1 else 0
  }

  /** What acknowledgements, dead letters and the attempt counters say. */
  ghost predicate Kept(run: seq<Step>, m: nat) {
    var s := After(run);
    && (m in s.acked ==> HasRow(s, m) || m in s.dlq)
    && (m < |s.attempts| ==> s.attempts[m] == AttemptsOf(run, m) <= 4)
    && (m >= |s.attempts| ==> AttemptsOf(run, m) == 0 && m !in s.acked)
    && (m in s.dlq ==> AttemptsOf(run, m) == 4)
  }

  lemma {:induction false} HasRowStays(s: State, step: Step, m: nat)
    requires HasRow(s, m)
    ensures HasRow(Next(s, step), m)
  {
    NextGrows(s, step);
    var i :| 0 <= i < |s.rows| && s.rows[i].message == m;
    assert Next(s, step).rows[i].message == m;
  }

  lemma {:induction false} AttemptKeeps(run: seq<Step>, m: nat)
    requires |run| > 0 && AttemptAt(run, |run| - 1, m) && Kept(run[..|run| - 1], m)
    ensures Kept(run, m)
  {
    var n := |run| - 1;
    var before, s := After(run[..n]), After(run);
    AlwaysSound(run[..n]);
    assert MessageSound(before, m);
    if HasRow(before, m) {
      HasRowStays(before, run[n], m);
    } else if Commits(before, m, run[n].outcome) {
      assert s.rows[|before.rows|].message == m;
    }
  }

  lemma {:induction false} OtherStepKeeps(run: seq<Step>, m: nat)
    requires |run| > 0 && !AttemptAt(run, |run| - 1, m) && Kept(run[..|run| - 1], m)
    ensures Kept(run, m)
  {
    var n := |run| - 1;
    var before, s := After(run[..n]), After(run);
    AlwaysSound(run[..n]);
    assert m in s.acked <==> m in before.acked;
    assert m in s.dlq <==> m in before.dlq;
    if HasRow(before, m) {
      HasRowStays(before, run[n], m);
    }
  }

  /**
   In every run a message that is acknowledged is in Evidence or on the dead-letter stream, so that none is lost by its
   acknowledgement; it has at most four attempts, and exactly four when it is dead-lettered.
   */
  lemma {:induction false} AcknowledgedIsKept(run: seq<Step>, m: nat)
    ensures Kept(run, m)
  {
    if |run| > 0 {
      AcknowledgedIsKept(run[..|run| - 1], m);
      if AttemptAt(run, |run| - 1, m) {
        AttemptKeeps(run, m);
      } else {
        OtherStepKeeps(run, m);
      }
    }
  }

  /******* Messages that are given up *******/

  /** The k-th step delivers the message in a batch, behind a task that could not be queued. */
  ghost predicate DropsAt(run: seq<Step>, k: nat, m: nat) {
    && k < |run| && run[k].Deliver? && Enabled(After(run[..k]), run[k])
    && var first := After(run[..k]).delivered;
       first + run[k].queued <= m < first + run[k].count
  }

  /**
   The k-th step is an attempt that fails and whose retry cannot be queued or, as the fourth one, whose message cannot
   be dead-lettered and acknowledged.
   */
  ghost predicate LosesAt(run: seq<Step>, k: nat, m: nat) {
    && AttemptAt(run, k, m) && FailsAt(After(run[..k]), m, run[k].outcome)
    && if AttemptsOf(run[..k], m) < 3 then run[k].handling == RetryFails
       else run[k].handling == DlqWriteFails || run[k].handling == DlqAckFails
  }

  lemma {:induction false} DropsAtStays(run: seq<Step>, k: nat, m: nat)
    requires |run| > 0
    ensures k < |run| - 1 ==> (DropsAt(run, k, m) <==> DropsAt(run[..|run| - 1], k, m))
  {
    if k < |run| - 1 {
      assert run[..|run| - 1][..k] == run[..k];
    }
  }

  lemma {:induction false} LosesAtStays(run: seq<Step>, k: nat, m: nat)
    requires |run| > 0
    ensures k < |run| - 1 ==> (LosesAt(run, k, m) <==> LosesAt(run[..|run| - 1], k, m))
  {
    if k < |run| - 1 {
      assert run[..|run| - 1][..k] == run[..k];
    }
  }

  /** A message that is given up stays so; another one is given up by this very step. */
  lemma {:induction false} StepGivesUp(run: seq<Step>, m: nat)
    requires |run| > 0 && m < |After(run).stages|
    ensures
      var n := |run| - 1;
      var before, s := After(run[..n]), After(run);
      && (s.stages[m].Dropped? <==> (m < |before.stages| && before.stages[m].Dropped?) || DropsAt(run, n, m))
      && (s.stages[m].Lost? <==> (m < |before.stages| && before.stages[m].Lost?) || LosesAt(run, n, m))
  {
    var n := |run| - 1;
    var before := After(run[..n]);
    AlwaysSound(run[..n]);
    AcknowledgedIsKept(run[..n], m);
    if m < |before.stages| {
      assert MessageSound(before, m);
      TakenIffInEvidence(before, m);
    }
  }

  /**
   In every run a message is dropped exactly if it was delivered behind a task that could not be queued, and lost
   exactly if one of its attempts failed whose retry could not be queued or, for the fourth, whose message could not be
   dead-lettered and acknowledged.
   */
  lemma {:induction false} GivenUpIff(run: seq<Step>, m: nat)
    requires m < |After(run).stages|
    ensures After(run).stages[m].Dropped? <==> exists k: nat :: DropsAt(run, k, m)
    ensures After(run).stages[m].Lost? <==> exists k: nat :: LosesAt(run, k, m)
  {
    if |run| > 0 {
      var n := |run| - 1;
      var before := After(run[..n]);
      StepGivesUp(run, m);
      if m < |before.stages| {
        GivenUpIff(run[..n], m);
      } else {
        NothingGivenUp(run[..n], m);
      }
      forall k: nat ensures DropsAt(run, k, m) <==> DropsAt(run[..n], k, m) || (k == n && DropsAt(run, n, m)) {
        DropsAtStays(run, k, m);
      }
      forall k: nat ensures LosesAt(run, k, m) <==> LosesAt(run[..n], k, m) || (k == n && LosesAt(run, n, m)) {
        LosesAtStays(run, k, m);
      }
    }
  }

  /******* Dead letters and acknowledgements *******/

  /** The k-th step is the fourth attempt of the message, fails and writes the dead letter. */
  ghost predicate DeadLettersAt(run: seq<Step>, k: nat, m: nat) {
    && AttemptAt(run, k, m) && FailsAt(After(run[..k]), m, run[k].outcome)
    && AttemptsOf(run[..k], m) == 3 && run[k].handling != DlqWriteFails
  }

  /** The k-th step acknowledges the message, for the evidence that it inserts or the dead letter that it writes. */
  ghost predicate AcknowledgesAt(run: seq<Step>, k: nat, m: nat) {
    && AttemptAt(run, k, m)
    && var outcome := run[k].outcome;
    || (!outcome.FailsBeforeCommit? && !outcome.AckFails? && !InEvidence(After(run[..k]), m))
    || (DeadLettersAt(run, k, m) && run[k].handling != DlqAckFails)
  }

  lemma {:induction false} AcknowledgesAtStays(run: seq<Step>, k: nat, m: nat)
    requires |run| > 0
    ensures k < |run| - 1 ==> (DeadLettersAt(run, k, m) <==> DeadLettersAt(run[..|run| - 1], k, m))
    ensures k < |run| - 1 ==> (AcknowledgesAt(run, k, m) <==> AcknowledgesAt(run[..|run| - 1], k, m))
  {
    if k < |run| - 1 {
      assert run[..|run| - 1][..k] == run[..k];
    }
  }

  lemma {:induction false} StepEnds(run: seq<Step>, m: nat)
    requires |run| > 0
    ensures
      var n := |run| - 1;
      var before, s := After(run[..n]), After(run);
      && (m in s.dlq <==> m in before.dlq || DeadLettersAt(run, n, m))
      && (m in s.acked <==> m in before.acked || AcknowledgesAt(run, n, m))
  {
    var n := |run| - 1;
    var before := After(run[..n]);
    AlwaysSound(run[..n]);
    AcknowledgedIsKept(run[..n], m);
    if AttemptAt(run, n, m) {
      assert MessageSound(before, m);
      TakenIffInEvidence(before, m);
    }
  }

  /**
   In every run a message is on the dead-letter stream exactly if its fourth attempt failed and wrote it there, and
   it is acknowledged exactly if an attempt that inserted its evidence, or wrote that dead letter, could do so.
   */
  lemma {:induction false} EndsIff(run: seq<Step>, m: nat)
    ensures m in After(run).dlq <==> exists k: nat :: DeadLettersAt(run, k, m)
    ensures m in After(run).acked <==> exists k: nat :: AcknowledgesAt(run, k, m)
  {
    if |run| > 0 {
      var n := |run| - 1;
      EndsIff(run[..n], m);
      StepEnds(run, m);
      forall k: nat
        ensures DeadLettersAt(run, k, m) <==> DeadLettersAt(run[..n], k, m) || (k == n && DeadLettersAt(run, n, m))
        ensures AcknowledgesAt(run, k, m) <==> AcknowledgesAt(run[..n], k, m) || (k == n && AcknowledgesAt(run, n, m))
      {
        AcknowledgesAtStays(run, k, m);
      }
    }
  }

  /** A message that has not arrived yet has not been given up. */
  lemma {:induction false} NothingGivenUp(run: seq<Step>, m: nat)
    requires m >= |After(run).stages|
    ensures forall k: nat :: !DropsAt(run, k, m) && !LosesAt(run, k, m)
  {
    forall k: nat | k < |run| ensures !DropsAt(run, k, m) && !LosesAt(run, k, m) {
      MessagesStay(run, k);
      AlwaysSound(run[..k]);
      AlwaysSound(run);
    }
  }

  lemma {:induction false} MessagesStay(run: seq<Step>, k: nat)
    requires k <= |run|
    ensures |After(run[..k]).messages| <= |After(run).messages|
  {
    if k < |run| {
      MessagesStay(run[..|run| - 1], k);
      assert run[..|run| - 1][..k] == run[..k];
      NextGrows(After(run[..|run| - 1]), run[|run| - 1]);
    } else {
      assert run[..k] == run;
    }
  }
}
