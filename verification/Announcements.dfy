/**
 What watchers, subscribers and the notifier are told: the messages of committed aggregates are, in order, those that
 the state changes of the audit trail call for. Announcements of aggregates that were rolled back are extra, and each is
 the beginning of a complete one.
 */
module Announcements {
  import opened Domain
  import opened Lifecycle
  import opened Bookkeeping
  import opened Escalation

  /** A message of a state change, without its instant. */
  datatype Message =
    | ToWatchers(decision: Id, previous: DecisionState, current: DecisionState)
    | ToSubscribers(decision: Id, previous: DecisionState, current: DecisionState)
    | ToNotifier(decision: Id)

  /** A change is told to watchers, then to subscribers and, if it is one to WARNING, then to the notifier. */
  function Calls(did: Id, previous: DecisionState, current: DecisionState): seq<Message> {
    [ToWatchers(did, previous, current), ToSubscribers(did, previous, current)]
    + if current == Warning then [ToNotifier(did)] else []
  }

  /** The messages that the state changes of the trail call for, in order. */
  function Called(audit: seq<AuditRecord>): seq<Message> {
    if |audit| == 0 then []
    else
      var r := audit[|audit| - 1];
      Called(audit[..|audit| - 1])
      + if r.payload.StateChange? then Calls(r.decision, r.payload.fromState, r.payload.toState) else []
  }

  /** The message, if it is one of a state change that was sent at one of these instants. */
  function ToldBy(m: Dispatch, commits: set<Time>): seq<Message> {
    if m.at !in commits then []
    else
      match m
      case SocketEvent(did, previous, current, _) => [ToWatchers(did, previous, current)]
      case DomainEvent(did, previous, current, _) => [ToSubscribers(did, previous, current)]
      case NotifyWarning(did, _) => [ToNotifier(did)]
      case ResolvedEvent(_, _, _) => []
  }

  /** What committed aggregates have sent, in order. */
  function Told(sent: seq<Dispatch>, commits: set<Time>): seq<Message> {
    if |sent| == 0 then [] else Told(sent[..|sent| - 1], commits) + ToldBy(sent[|sent| - 1], commits)
  }

  ghost predicate AnnouncedAsRecorded(w: World) {
    Told(w.sent, w.commits) == Called(w.db.audit)
  }

  lemma {:induction false} LaterCommitTellsNothing(sent: seq<Dispatch>, commits: set<Time>, at: Time)
    requires forall i | 0 <= i < |sent| :: sent[i].at < at
    ensures Told(sent, commits + {at}) == Told(sent, commits)
  {
    if |sent| > 0 {
      LaterCommitTellsNothing(sent[..|sent| - 1], commits, at);
    }
  }

  lemma {:induction false} ToldAppend(sent: seq<Dispatch>, more: seq<Dispatch>, commits: set<Time>)
    ensures Told(sent + more, commits) == Told(sent, commits) + Told(more, commits)
  {
    if |more| == 0 {
      assert sent + more == sent;
    } else {
      assert (sent + more)[..|sent + more| - 1] == sent + more[..|more| - 1];
      ToldAppend(sent, more[..|more| - 1], commits);
    }
  }

  lemma CalledAppend(audit: seq<AuditRecord>, r: AuditRecord)
    ensures
      Called(audit + [r])
      == Called(audit) + if r.payload.StateChange?
        then Calls(r.decision, r.payload.fromState, r.payload.toState) else []
  {
    assert (audit + [r])[..|audit|] == audit;
  }

  lemma {:induction false} OneTells(m: Dispatch, commits: set<Time>)
    ensures Told([m], commits) == ToldBy(m, commits)
  {
    assert [m][..0] == [];
  }

  lemma {:induction false} BothEventsTell(did: Id, previous: DecisionState, current: DecisionState, at: Time,
      commits: set<Time>)
    ensures
      Told([SocketEvent(did, previous, current, at), DomainEvent(did, previous, current, at)], commits)
      == if at in commits then [ToWatchers(did, previous, current), ToSubscribers(did, previous, current)] else []
  {
    var socket, domain := SocketEvent(did, previous, current, at), DomainEvent(did, previous, current, at);
    OneTells(socket, commits);
    OneTells(domain, commits);
    ToldAppend([socket], [domain], commits);
    assert [socket] + [domain] == [socket, domain];
  }

  /** An announcement sends what its change calls for, up to the call that raises, and in that order. */
  lemma {:induction false} AnnouncementTells(did: Id, previous: DecisionState, current: DecisionState, at: Time,
      fault: Fault, commits: set<Time>)
    ensures
      var a, calls := Announcement(did, previous, current, at, fault), Calls(did, previous, current);
      && (at !in commits ==> Told(a, commits) == [])
      && (at in commits ==>
            Told(a, commits)
            == match fault
               case SocketEventFails => []
               case DomainEventFails => calls[..1]
               case NotifyFails => calls[..2]
               case _ => calls)
  {
    var socket, domain := SocketEvent(did, previous, current, at), DomainEvent(did, previous, current, at);
    OneTells(socket, commits);
    BothEventsTell(did, previous, current, at, commits);
    if current == Warning && fault != NotifyFails {
      OneTells(NotifyWarning(did, at), commits);
      ToldAppend([socket, domain], [NotifyWarning(did, at)], commits);
    }
  }

  lemma {:induction false} FinishKeepsAnnounced(w: World, base: Database, did: Id, call: AggregateCall, t: Tenant,
      at: Time)
    requires AnnouncedAsRecorded(w) && InstantsPast(w) && w.now < at
    requires did in base.decisions && call.evidence in base.evidences && base.audit == w.db.audit
    ensures AnnouncedAsRecorded(Finish(w, base, did, call, t, at).0)
  {
    var (w', reply) := Finish(w, base, did, call, t, at);
    var a := Announced(base, did, call, t, at);
    var d, d' := base.decisions[did], Folded(base, did, call.evidence, t, at).decisions[did];
    FinishShape(w, base, did, call, t, at);
    FinishSends(w, base, did, call, t, at);
    AnnouncementTells(did, d.state, d'.state, at, call.fault, w'.commits);
    ToldAppend(w.sent, a, w'.commits);
    if reply.Aggregated? {
      LaterCommitTellsNothing(w.sent, w.commits, at);
      FoldedTrail(base, did, call.evidence, t, at);
      if d.state != d'.state {
        var change := StateChange(d.state, d'.state, d'.evidenceCount, d'.cumulativeSeverity);
        CalledAppend(base.audit, AuditRecord(did, change, None));
      }
    }
  }

  lemma {:induction false} AggregateKeepsAnnounced(w: World, call: AggregateCall, at: Time)
    requires AnnouncedAsRecorded(w) && InstantsPast(w) && w.now < at
    ensures AnnouncedAsRecorded(AggregateWith(w, Found(w, call, at), call, at).0)
  {
    if call.evidence in w.db.evidences && w.db.evidences[call.evidence].tenant in w.db.tenants {
      var found, t := Found(w, call, at), w.db.tenants[w.db.evidences[call.evidence].tenant];
      PrepareMovesOneKey(w, found, call, at);
      PrepareShape(w, found, call, at);
      var p := Prepare(w, found, call, at);
      if call.fault != LookupFails && p.Ready? {
        FinishKeepsAnnounced(p.world, p.base, p.decision, call, t, at);
      }
    }
  }

  lemma {:induction false} ResolveKeepsAnnounced(w: World, req: Id, at: Time, fault: ResolveFault)
    requires AnnouncedAsRecorded(w) && req in w.pending
    ensures AnnouncedAsRecorded(CommitResolve(w, req, at, fault))
  {
    var p := w.pending[req];
    var m := ResolvedEvent(p.decision, StateFor(p.disposition), at);
    ToldAppend(w.sent, [m], w.commits);
    OneTells(m, w.commits);
    CalledAppend(w.db.audit, AuditRecord(p.decision, Payload.Resolution(p.disposition), Some(p.actor)));
  }

  lemma {:induction false} NextKeepsAnnounced(w: World, ts: TimedStep)
    requires AnnouncedAsRecorded(w) && InstantsPast(w)
    ensures AnnouncedAsRecorded(Next(w, ts))
  {
    if Enabled(w, ts) {
      match ts.step
      case AggregateStep(call) => AggregateKeepsAnnounced(w, call, ts.at);
      case CommitResolveStep(req, fault) => ResolveKeepsAnnounced(w, req, ts.at, fault);
      case _ =>
    }
  }

  /**
   In every run committed aggregates have sent exactly what the state changes of the audit trail call for: for each, in
   its order and with its states, one socket event, then one domain event and, for a change to WARNING, then one
   notification.
   */
  lemma {:induction false} CommittedChangesAreAnnounced(w: World, run: seq<TimedStep>)
    requires Initial(w)
    ensures AnnouncedAsRecorded(After(w, run))
  {
    if |run| > 0 {
      var front := run[..|run| - 1];
      CommittedChangesAreAnnounced(w, front);
      NoticesAlwaysMatch(w, front);
      NextKeepsAnnounced(After(w, front), run[|run| - 1]);
    }
  }
}
