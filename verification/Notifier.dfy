/**
 Warning notifications: one task makes up to four attempts, each in a transaction of its own that adds a delivery
 row per active configuration and calls the provider for it. Provider calls cannot be undone, rows can.
 */
module Notifier {
  import opened Domain
  import opened Sums

  const MAX_RETRIES := 3

  datatype Channel = Sms | WhatsApp

  datatype Config = Config(id: Id, tenant: Id, channel: Channel, active: bool)

  datatype Status = Pending | Sent | Failed

  datatype Delivery = Delivery(tenant: Id, decision: Id, config: Id, channel: Channel, status: Status,
      provider: Option<Id>)

  /** A call of the provider. */
  datatype Send = Send(decision: Id, config: Id, channel: Channel)

  /** `decisions` maps a decision to its tenant; `sends` is the history of provider calls. */
  datatype State = State(decisions: map<Id, Id>, configs: set<Config>, deliveries: seq<Delivery>, sends: seq<Send>)

  /**
   What one attempt meets: the order in which the query lists the active configurations, what the provider answers
   for each (none when it raises), and which of the database calls fails, if any.
   */
  datatype Plan = Plan(order: seq<Config>, answers: map<Id, Id>, queryFails: bool, flushFailsAt: Option<nat>,
      commitFails: bool)

  /** A configuration of the tenant that is active. */
  predicate IsActive(c: Config, tenant: Id) {
    c.tenant == tenant && c.active
  }

  /** The query lists every active configuration of the tenant once; configuration ids are unique. */
  ghost predicate Lists(order: seq<Config>, configs: set<Config>, tenant: Id) {
    && (forall c :: c in order <==> c in configs && IsActive(c, tenant))
    && (forall i, j | 0 <= i < j < |order| :: order[i].id != order[j].id)
  }

  function ConfigIds(order: seq<Config>): (r: seq<Id>)
    ensures |r| == |order|
  {
    seq(|order|, i requires 0 <= i < |order| => order[i].id)
  }

  /******* What an attempt does *******/

  /** The i-th configuration gets its row and the provider takes its message. */
  predicate Delivers(p: Plan, i: nat)
    requires i < |p.order|
  {
    p.flushFailsAt != Some(i) && p.order[i].id in p.answers
  }

  /** Number of leading configurations that are delivered, from the i-th on. */
  function DeliveredFrom(p: Plan, i: nat): (n: nat)
    requires i <= |p.order|
    ensures i + n <= |p.order|
    decreases |p.order| - i
  {
    if i == |p.order| || !Delivers(p, i) then 0 else 1 + DeliveredFrom(p, i + 1)
  }

  /** Number of leading configurations that the provider is called for: the delivered ones and the one it raises for. */
  function Called(p: Plan): (n: nat)
    ensures n <= |p.order|
  {
    var k := DeliveredFrom(p, 0);
    if k < |p.order| && p.flushFailsAt != Some(k) then k + 1 else k
  }

  function SendsOf(p: Plan, decision: Id, n: nat): (r: seq<Send>)
    requires n <= |p.order|
    ensures |r| == n
  {
    seq(n, i requires 0 <= i < n => Send(decision, p.order[i].id, p.order[i].channel))
  }

  function RowsOf(p: Plan, tenant: Id, decision: Id, n: nat): (r: seq<Delivery>)
    requires n <= |p.order| && forall i | 0 <= i < n :: Delivers(p, i)
    ensures |r| == n
  {
    seq(n, i requires 0 <= i < n && Delivers(p, i) =>
      Delivery(tenant, decision, p.order[i].id, p.order[i].channel, Sent, Some(p.answers[p.order[i].id])))
  }

  lemma {:induction false} DeliveredAre(p: Plan, i: nat)
    requires i <= |p.order|
    ensures forall j | i <= j < i + DeliveredFrom(p, i) :: Delivers(p, j)
    ensures i + DeliveredFrom(p, i) < |p.order| ==> !Delivers(p, i + DeliveredFrom(p, i))
    decreases |p.order| - i
  {
    if i < |p.order| && Delivers(p, i) {
      DeliveredAre(p, i + 1);
    }
  }

  /** Nothing raises in the attempt. */
  predicate Succeeds(s: State, decision: Id, p: Plan) {
    && decision in s.decisions && !p.queryFails && !p.commitFails
    && forall i | 0 <= i < |p.order| :: Delivers(p, i)
  }

  function Attempted(s: State, decision: Id, p: Plan): State {
    if decision !in s.decisions || p.queryFails then s
    else
      s.(sends := s.sends + SendsOf(p, decision, Called(p)),
         deliveries :=
           if Succeeds(s, decision, p) then s.deliveries + RowsOf(p, s.decisions[decision], decision, |p.order|)
             else s.deliveries)
  }

  /** A notification: attempts until one succeeds or the plans run out. */
  function Notified(s: State, decision: Id, plans: seq<Plan>): (State, bool)
    decreases |plans|
  {
    if |plans| == 0 then (s, false)
    else if Succeeds(s, decision, plans[0]) then (Attempted(s, decision, plans[0]), true)
    else Notified(Attempted(s, decision, plans[0]), decision, plans[1..])
  }

  /******* All or nothing *******/

  /** A SENT row with the provider's id, for an active configuration of the decision's tenant. */
  ghost predicate RowSent(row: Delivery, configs: set<Config>, tenant: Id, decision: Id) {
    && row.status == Sent && row.provider.Some? && row.tenant == tenant && row.decision == decision
    && exists c | c in configs ::
         c.tenant == tenant && c.active && c.id == row.config && c.channel == row.channel
  }

  ghost predicate HasRow(rows: seq<Delivery>, config: Id) {
    exists i | 0 <= i < |rows| :: rows[i].config == config
  }

  /** One SENT row per active configuration, and no other row. */
  ghost predicate OneSentRowEach(rows: seq<Delivery>, configs: set<Config>, tenant: Id, decision: Id) {
    && (forall row | row in rows :: RowSent(row, configs, tenant, decision))
    && (forall c | c in configs && c.tenant == tenant && c.active :: HasRow(rows, c.id))
    && (forall i, j | 0 <= i < j < |rows| :: rows[i].config != rows[j].config)
  }

  /** The plans of a task's attempts: at most four, each listing the same active configurations. */
  ghost predicate TaskPlans(s: State, decision: Id, plans: seq<Plan>) {
    |plans| <= 4 && PlansList(s, decision, plans)
  }

  ghost predicate PlansList(s: State, decision: Id, plans: seq<Plan>) {
    decision in s.decisions ==> forall k | 0 <= k < |plans| :: Lists(plans[k].order, s.configs, s.decisions[decision])
  }

  /** The rows have the message ids with which the provider answered this attempt. */
  ghost predicate AnsweredIn(p: Plan, rows: seq<Delivery>) {
    forall row | row in rows :: row.config in p.answers && row.provider == Some(p.answers[row.config])
  }

  lemma SuccessWritesOneRowEach(s: State, decision: Id, p: Plan)
    requires Succeeds(s, decision, p) && Lists(p.order, s.configs, s.decisions[decision])
    ensures
      var tenant := s.decisions[decision];
      var rows := RowsOf(p, tenant, decision, |p.order|);
      OneSentRowEach(rows, s.configs, tenant, decision) && AnsweredIn(p, rows)
  {
    var tenant := s.decisions[decision];
    var rows := RowsOf(p, tenant, decision, |p.order|);
    forall row | row in rows
      ensures RowSent(row, s.configs, tenant, decision)
      ensures row.config in p.answers && row.provider == Some(p.answers[row.config])
    {
      var i :| 0 <= i < |rows| && rows[i] == row;
      assert p.order[i] in p.order && Delivers(p, i);
    }
    forall c | c in s.configs && IsActive(c, tenant) ensures HasRow(rows, c.id) {
      assert c in p.order;
      var i :| 0 <= i < |p.order| && p.order[i] == c;
      assert rows[i].config == c.id;
    }
  }

  /**
   Whatever the provider and the database do, a task whose attempts all fail leaves no delivery row, and one that
   succeeds leaves exactly one SENT row per active configuration, with the ids that the provider gave in one attempt.
   */
  lemma {:induction false} NotifyIsAllOrNothing(s: State, decision: Id, plans: seq<Plan>)
    requires PlansList(s, decision, plans)
    ensures
      var (s', ok) := Notified(s, decision, plans);
      && s'.decisions == s.decisions && s'.configs == s.configs
      && (!ok ==> s'.deliveries == s.deliveries)
      && (ok ==>
            && decision in s.decisions && s.deliveries <= s'.deliveries
            && OneSentRowEach(s'.deliveries[|s.deliveries|..], s.configs, s.decisions[decision], decision)
            && exists p | p in plans :: AnsweredIn(p, s'.deliveries[|s.deliveries|..]))
    decreases |plans|
  {
    if |plans| > 0 {
      var p := plans[0];
      if Succeeds(s, decision, p) {
        SuccessWritesOneRowEach(s, decision, p);
        assert Attempted(s, decision, p).deliveries[|s.deliveries|..]
               == RowsOf(p, s.decisions[decision], decision, |p.order|);
      } else {
        NotifyIsAllOrNothing(Attempted(s, decision, p), decision, plans[1..]);
      }
    }
  }

  /** The decision is there, no call to the database fails, and the provider answers for every listed configuration. */
  ghost predicate MeetsNoFailure(s: State, decision: Id, p: Plan) {
    && decision in s.decisions && !p.queryFails && !p.commitFails
    && (p.flushFailsAt.Some? ==> p.flushFailsAt.value >= |p.order|)
    && forall c | c in p.order :: c.id in p.answers
  }

  /** A notification succeeds exactly if one of its attempts meets no failure. */
  lemma NotifySucceedsIff(s: State, decision: Id, plans: seq<Plan>)
    ensures Notified(s, decision, plans).1 <==> exists k | 0 <= k < |plans| :: MeetsNoFailure(s, decision, plans[k])
  {
    NotifiedIff(s, decision, plans);
    forall p ensures Succeeds(s, decision, p) <==> MeetsNoFailure(s, decision, p) {
      if MeetsNoFailure(s, decision, p) {
        forall i | 0 <= i < |p.order| ensures Delivers(p, i) {
          assert p.order[i] in p.order;
        }
      }
      if Succeeds(s, decision, p) {
        forall c | c in p.order ensures c.id in p.answers {
          var i :| 0 <= i < |p.order| && p.order[i] == c;
          assert Delivers(p, i);
        }
        forall i | 0 <= i < |p.order| ensures p.flushFailsAt != Some(i) {
          assert Delivers(p, i);
        }
      }
    }
  }

  lemma {:induction false} NotifiedIff(s: State, decision: Id, plans: seq<Plan>)
    ensures Notified(s, decision, plans).1 <==> exists k | 0 <= k < |plans| :: Succeeds(s, decision, plans[k])
    decreases |plans|
  {
    if |plans| > 0 && !Succeeds(s, decision, plans[0]) {
      var s1 := Attempted(s, decision, plans[0]);
      NotifiedIff(s1, decision, plans[1..]);
      if exists k | 0 <= k < |plans| :: Succeeds(s, decision, plans[k]) {
        var k :| 0 <= k < |plans| && Succeeds(s, decision, plans[k]);
        assert Succeeds(s1, decision, plans[1..][k - 1]);
      }
      if k :| 0 <= k < |plans[1..]| && Succeeds(s1, decision, plans[1..][k]) {
        assert Succeeds(s, decision, plans[k + 1]);
      }
    }
  }

  datatype Task = Task(decision: Id, plans: seq<Plan>)

  function AfterTasks(s: State, tasks: seq<Task>): State {
    if |tasks| == 0 then s
    else
      var last := tasks[|tasks| - 1];
      Notified(AfterTasks(s, tasks[..|tasks| - 1]), last.decision, last.plans).0
  }

  ghost predicate RowsSettled(s: State) {
    forall row | row in s.deliveries ::
      row.decision in s.decisions && RowSent(row, s.configs, s.decisions[row.decision], row.decision)
  }

  /**
   Over any series of tasks every committed row is SENT, with a provider id, for an active configuration of its
   decision's tenant.
   */
  lemma {:induction false} CommittedRowsAreSent(s: State, tasks: seq<Task>)
    requires RowsSettled(s) && forall k | 0 <= k < |tasks| :: PlansList(s, tasks[k].decision, tasks[k].plans)
    ensures RowsSettled(AfterTasks(s, tasks))
    ensures AfterTasks(s, tasks).decisions == s.decisions && AfterTasks(s, tasks).configs == s.configs
  {
    if |tasks| > 0 {
      var n := |tasks| - 1;
      var before, task := AfterTasks(s, tasks[..n]), tasks[n];
      CommittedRowsAreSent(s, tasks[..n]);
      assert PlansList(before, task.decision, task.plans) by {
        assert PlansList(s, task.decision, task.plans);
      }
      NotifyIsAllOrNothing(before, task.decision, task.plans);
      var after := AfterTasks(s, tasks).deliveries;
      var k := |before.deliveries|;
      forall row | row in after && row !in before.deliveries ensures row in after[k..] {
        assert before.deliveries <= after;
        assert after == after[..k] + after[k..];
      }
    }
  }

  /******* Provider calls *******/

  /** The call is for an active configuration of the decision's tenant, on the channel of the configuration. */
  ghost predicate CallSound(s: State, send: Send) {
    && send.decision in s.decisions
    && exists c | c in s.configs ::
         c.tenant == s.decisions[send.decision] && c.active && c.id == send.config && c.channel == send.channel
  }

  ghost predicate CallsSound(s: State) {
    forall send | send in s.sends :: CallSound(s, send)
  }

  lemma AttemptKeepsCalls(s: State, decision: Id, p: Plan)
    requires CallsSound(s) && (decision in s.decisions ==> Lists(p.order, s.configs, s.decisions[decision]))
    ensures CallsSound(Attempted(s, decision, p))
  {
    var s' := Attempted(s, decision, p);
    forall send | send in s'.sends ensures CallSound(s', send) {
      if send in s.sends {
        assert CallSound(s, send);
      } else {
        var i :| 0 <= i < Called(p) && SendsOf(p, decision, Called(p))[i] == send;
        assert p.order[i] in p.order;
      }
    }
  }

  lemma {:induction false} NotifyKeepsCalls(s: State, decision: Id, plans: seq<Plan>)
    requires CallsSound(s) && PlansList(s, decision, plans)
    ensures CallsSound(Notified(s, decision, plans).0)
    decreases |plans|
  {
    if |plans| > 0 {
      AttemptKeepsCalls(s, decision, plans[0]);
      if !Succeeds(s, decision, plans[0]) {
        NotifyKeepsCalls(Attempted(s, decision, plans[0]), decision, plans[1..]);
      }
    }
  }

  /** Over any series of tasks the provider is only called for active configurations, on their own channels. */
  lemma {:induction false} CallsGoToActiveConfigs(s: State, tasks: seq<Task>)
    requires CallsSound(s) && RowsSettled(s)
    requires forall k | 0 <= k < |tasks| :: PlansList(s, tasks[k].decision, tasks[k].plans)
    ensures CallsSound(AfterTasks(s, tasks))
  {
    if |tasks| > 0 {
      var n := |tasks| - 1;
      CallsGoToActiveConfigs(s, tasks[..n]);
      CommittedRowsAreSent(s, tasks[..n]);
      assert PlansList(s, tasks[n].decision, tasks[n].plans);
      NotifyKeepsCalls(AfterTasks(s, tasks[..n]), tasks[n].decision, tasks[n].plans);
    }
  }

  /** The provider is called for every listed configuration, if only the last call and the commit may still fail. */
  predicate ReachesAll(s: State, decision: Id, p: Plan) {
    |p.order| == 0
    || (decision in s.decisions && !p.queryFails && p.flushFailsAt != Some(|p.order| - 1)
        && forall i | 0 <= i < |p.order| - 1 :: Delivers(p, i))
  }

  /**
   An attempt calls the provider for a prefix of the listed configurations, and for all of them exactly if every row is
   flushed and no call but the last one raises.
   */
  lemma AttemptSendsPrefix(s: State, decision: Id, p: Plan)
    ensures
      var s' := Attempted(s, decision, p);
      && s.sends <= s'.sends
      && s'.sends[|s.sends|..] <= SendsOf(p, decision, |p.order|)
      && (s'.sends[|s.sends|..] == SendsOf(p, decision, |p.order|) <==> ReachesAll(s, decision, p))
      && (forall i | 0 <= i < |s'.sends| - |s.sends| - 1 :: Delivers(p, i))
  {
    DeliveredAre(p, 0);
    var s' := Attempted(s, decision, p);
    var k := DeliveredFrom(p, 0);
    assert |s'.sends[|s.sends|..]| == |s'.sends| - |s.sends|;
    if decision in s.decisions && !p.queryFails {
      assert s'.sends[|s.sends|..] == SendsOf(p, decision, Called(p));
      if ReachesAll(s, decision, p) && k < |p.order| {
        assert !Delivers(p, k);
      } else if Called(p) == |p.order| > 0 && k == |p.order| {
        assert Delivers(p, |p.order| - 1);
      }
    }
  }

  function SendsTo(sends: seq<Send>, decision: Id, config: Id): nat {
    if |sends| == 0 then 0
    else
      var last := sends[|sends| - 1];
      SendsTo(sends[..|sends| - 1], decision, config) + if last.decision == decision && last.config == config
        then 1 else 0
  }

  lemma {:induction false} SendsToAppended(sends: seq<Send>, more: seq<Send>, decision: Id, config: Id)
    ensures SendsTo(sends + more, decision, config)
            == SendsTo(sends, decision, config) + SendsTo(more, decision, config)
  {
    if |more| == 0 {
      assert sends + more == sends;
    } else {
      assert (sends + more)[..|sends + more| - 1] == sends + more[..|more| - 1];
      SendsToAppended(sends, more[..|more| - 1], decision, config);
    }
  }

  /** A prefix of configurations without repeats calls each of them at most once, and none that it does not list. */
  lemma {:induction false} PrefixSendsOnce(p: Plan, decision: Id, n: nat, config: Id)
    requires n <= |p.order|
    requires forall i, j | 0 <= i < j < |p.order| :: p.order[i].id != p.order[j].id
    ensures SendsTo(SendsOf(p, decision, n), decision, config) == if config in ConfigIds(p.order)[..n] then 1 else 0
  {
    if n > 0 {
      PrefixSendsOnce(p, decision, n - 1, config);
      assert SendsOf(p, decision, n)[..n - 1] == SendsOf(p, decision, n - 1);
      assert ConfigIds(p.order)[..n] == ConfigIds(p.order)[..n - 1] + [p.order[n - 1].id];
    }
  }

  /**
   No configuration is called more often than there are attempts, and one that is not an active one of the tenant
   is never called.
   */
  lemma {:induction false} SendsAreBounded(s: State, decision: Id, plans: seq<Plan>, config: Id)
    requires PlansList(s, decision, plans)
    ensures
      var (s', ok) := Notified(s, decision, plans);
      var calls := SendsTo(s'.sends, decision, config) - SendsTo(s.sends, decision, config);
      var listed :=
        decision in s.decisions && exists c | c in s.configs :: IsActive(c, s.decisions[decision]) && c.id == config;
      && (if ok && listed then 1 else 0) <= calls <= (if listed then |plans| else 0)
    decreases |plans|
  {
    if |plans| > 0 && decision in s.decisions {
      var p := plans[0];
      var s1 := Attempted(s, decision, p);
      var listed := exists c | c in s.configs :: IsActive(c, s.decisions[decision]) && c.id == config;
      if !p.queryFails {
        assert Lists(p.order, s.configs, s.decisions[decision]);
        SendsToAppended(s.sends, SendsOf(p, decision, Called(p)), decision, config);
        PrefixSendsOnce(p, decision, Called(p), config);
        ListedIds(p.order, s.configs, s.decisions[decision], config);
        DeliveredAre(p, 0);
      }
      if !Succeeds(s, decision, p) {
        SendsAreBounded(s1, decision, plans[1..], config);
      }
    } else if |plans| > 0 {
      SendsAreBounded(s, decision, plans[1..], config);
    }
  }

  lemma ListedIds(order: seq<Config>, configs: set<Config>, tenant: Id, config: Id)
    requires Lists(order, configs, tenant)
    ensures config in ConfigIds(order) <==> exists c | c in configs :: IsActive(c, tenant) && c.id == config
  {
    if config in ConfigIds(order) {
      var i :| 0 <= i < |order| && ConfigIds(order)[i] == config;
      assert order[i] in order;
    }
    if c :| c in configs && IsActive(c, tenant) && c.id == config {
      var i :| 0 <= i < |order| && order[i] == c;
      assert ConfigIds(order)[i] == config;
    }
  }

  /** A task calls no configuration more than 1 + max_retries times. */
  lemma NoConfigCalledMoreThanFourTimes(s: State, decision: Id, plans: seq<Plan>, config: Id)
    requires TaskPlans(s, decision, plans)
    ensures SendsTo(Notified(s, decision, plans).0.sends, decision, config) <= SendsTo(s.sends, decision, config) + 4
  {
    SendsAreBounded(s, decision, plans, config);
  }

  /******* The worker *******/

  class NotificationWorker {
    var decisions: map<Id, Id>
    var configs: set<Config>
    var deliveries: seq<Delivery>
    var sends: seq<Send>

    function Model(): State
      reads this
    {
      State(decisions, configs, deliveries, sends)
    }

    constructor (decisions: map<Id, Id>, configs: set<Config>)
      ensures Model() == State(decisions, configs, [], [])
    {
      this.decisions, this.configs, deliveries, sends := decisions, configs, [], [];
    }

    /** One attempt; false when it raises, and then its transaction is rolled back. */
    method Attempt(decision: Id, p: Plan) returns (ok: bool)
      modifies this`deliveries, this`sends
      ensures ok <==> Succeeds(old(Model()), decision, p)
      ensures Model() == Attempted(old(Model()), decision, p)
    {
      if decision !in decisions || p.queryFails {
        return false;
      }
      var rows: seq<Delivery> := [];
      DeliveredAre(p, 0);
      var i := 0;
      while i < |p.order|
        invariant 0 <= i <= |p.order| && deliveries == old(deliveries)
        invariant forall j | 0 <= j < i :: Delivers(p, j)
        invariant rows == RowsOf(p, decisions[decision], decision, i)
        invariant sends == old(sends) + SendsOf(p, decision, i)
      {
        var config := p.order[i];
        rows := rows + [Delivery(decisions[decision], decision, config.id, config.channel, Pending, None)];
        if p.flushFailsAt == Some(i) {
          assert !Delivers(p, i);
          return false;
        }
        sends := sends + [Send(decision, config.id, config.channel)];
        if config.id !in p.answers {
          rows := rows[i := rows[i].(status := Failed)];
          assert !Delivers(p, i);
          return false;
        }
        rows := rows[i := rows[i].(status := Sent, provider := Some(p.answers[config.id]))];
        i := i + 1;
      }
      if p.commitFails {
        return false;
      }
      deliveries := deliveries + rows;
      return true;
    }

    /** A notification, retried after every failure until its retries run out. */
    method NotifyWarning(decision: Id, plans: seq<Plan>) returns (ok: bool)
      requires |plans| == 4
      modifies this`deliveries, this`sends
      ensures (Model(), ok) == Notified(old(Model()), decision, plans)
    {
      var retries := 0;
      while true
        invariant 0 <= retries <= MAX_RETRIES
        invariant decisions == old(decisions) && configs == old(configs)
        invariant Notified(Model(), decision, plans[retries..]) == Notified(old(Model()), decision, plans)
        decreases MAX_RETRIES - retries
      {
        ok := Attempt(decision, plans[retries]);
        if ok {
          return;
        }
        assert plans[retries..][1..] == plans[retries + 1..];
        if retries >= MAX_RETRIES {
          return;
        }
        retries := retries + 1;
      }
    }
  }
}
