/**
 The WebSocket connection manager: one room of sockets per tenant and a connection counter per subject. Every
 connect and every disconnect holds the manager's lock, so a run is a sequence of these two, in any order; a
 broadcast disconnects the sockets that it finds dead.
 */
module Rooms {
  import opened Domain
  import opened Sums

  const MAX_CONNECTIONS_PER_SUB := 5

  /** What an accepted connect notes on its socket. */
  datatype Tag = Tag(tenant: string, sub: string)

  /** A room or a counter that is missing reads as empty or as zero. */
  datatype State = State(rooms: map<string, set<Id>>, subs: map<string, int>, tags: map<Id, Tag>)

  function Initial(): State {
    State(map[], map[], map[])
  }

  function RoomOf(s: State, tenant: string): set<Id> {
    if tenant in s.rooms then s.rooms[tenant] else {}
  }

  function SubsOf(s: State, sub: string): int {
    if sub in s.subs then s.subs[sub] else 0
  }

  /******* Steps *******/

  datatype Step =
    | Connect(socket: Id, tenant: string, sub: string, accepts: bool)
    | Disconnect(socket: Id)

  datatype Reply = Accepted | LimitReached | AcceptRaises

  /** A socket that has been accepted before cannot be accepted again. */
  function ConnectReply(s: State, socket: Id, sub: string, accepts: bool): Reply {
    if SubsOf(s, sub) >= MAX_CONNECTIONS_PER_SUB then LimitReached
    else if !accepts || socket in s.tags then AcceptRaises
    else Accepted
  }

  function Connected(s: State, socket: Id, tenant: string, sub: string): State {
    State(s.rooms[tenant := RoomOf(s, tenant) + {socket}],
          s.subs[sub := SubsOf(s, sub) + 1],
          s.tags[socket := Tag(tenant, sub)])
  }

  /** The socket is in a room that a disconnect takes it out of; an empty tenant or subject counts as none. */
  predicate Leaves(s: State, socket: Id) {
    socket in s.tags && s.tags[socket].tenant != "" && socket in RoomOf(s, s.tags[socket].tenant)
  }

  /** A disconnect of the socket lowers its subject's counter. */
  predicate Lowers(s: State, socket: Id) {
    socket in s.tags && s.tags[socket].sub != "" && SubsOf(s, s.tags[socket].sub) > 0
  }

  function Disconnected(s: State, socket: Id): State {
    if socket !in s.tags then s
    else
      var tag := s.tags[socket];
      s.(rooms := if Leaves(s, socket) then s.rooms[tag.tenant := RoomOf(s, tag.tenant) - {socket}] else s.rooms,
         subs := if Lowers(s, socket) then s.subs[tag.sub := SubsOf(s, tag.sub) - 1] else s.subs)
  }

  function Next(s: State, step: Step): State {
    match step
    case Connect(socket, tenant, sub, accepts) =>
      if ConnectReply(s, socket, sub, accepts) == Accepted then Connected(s, socket, tenant, sub) else s
    case Disconnect(socket) => Disconnected(s, socket)
  }

  function After(run: seq<Step>): State {
    if |run| == 0 then Initial() else Next(After(run[..|run| - 1]), run[|run| - 1])
  }

  /******* What every run keeps *******/

  /** The sockets of a subject that are in their room. */
  function Registered(s: State, sub: string): set<Id> {
    set ws | ws in s.tags && s.tags[ws].sub == sub && ws in RoomOf(s, s.tags[ws].tenant)
  }

  /** A socket is only in the room of the tenant that it was accepted for. */
  ghost predicate RoomsSound(s: State) {
    forall tenant, ws | ws in RoomOf(s, tenant) :: ws in s.tags && s.tags[ws].tenant == tenant
  }

  ghost predicate SubSound(s: State, sub: string) {
    && 0 <= SubsOf(s, sub) <= MAX_CONNECTIONS_PER_SUB
    && (if sub == "" then |Registered(s, sub)| <= SubsOf(s, sub) else SubsOf(s, sub) <= |Registered(s, sub)|)
  }

  ghost predicate Sound(s: State) {
    RoomsSound(s) && forall sub :: SubSound(s, sub)
  }

  lemma ConnectRoom(s: State, socket: Id, tenant: string, sub: string, other: string)
    ensures RoomOf(Connected(s, socket, tenant, sub), other) == if other == tenant
      then RoomOf(s, other) + {socket} else RoomOf(s, other)
  {
  }

  lemma DisconnectRoom(s: State, socket: Id, other: string)
    ensures
      RoomOf(Disconnected(s, socket), other)
      == if Leaves(s, socket) && other == s.tags[socket].tenant then RoomOf(s, other) - {socket} else RoomOf(s, other)
  {
  }

  lemma StepKeepsRooms(s: State, step: Step)
    requires RoomsSound(s)
    ensures RoomsSound(Next(s, step))
  {
    var s' := Next(s, step);
    forall tenant, ws | ws in RoomOf(s', tenant) ensures ws in s'.tags && s'.tags[ws].tenant == tenant {
      if step.Disconnect? {
        DisconnectRoom(s, step.socket, tenant);
      } else if ConnectReply(s, step.socket, step.sub, step.accepts) == Accepted {
        ConnectRoom(s, step.socket, step.tenant, step.sub, tenant);
      }
    }
  }

  lemma ConnectRegisters(s: State, socket: Id, tenant: string, sub: string, other: string)
    requires RoomsSound(s) && socket !in s.tags
    ensures
      Registered(Connected(s, socket, tenant, sub), other)
      == if other == sub then Registered(s, other) + {socket} else Registered(s, other)
  {
  }

  lemma DisconnectRegisters(s: State, socket: Id, other: string)
    requires RoomsSound(s)
    ensures
      Registered(Disconnected(s, socket), other)
      == if Leaves(s, socket) && other == s.tags[socket].sub then Registered(s, other) - {socket}
        else Registered(s, other)
  {
  }

  lemma ConnectKeepsSub(s: State, socket: Id, tenant: string, sub: string, other: string)
    requires RoomsSound(s) && SubSound(s, other) && ConnectReply(s, socket, sub, true) == Accepted
    ensures SubSound(Connected(s, socket, tenant, sub), other)
  {
    ConnectRegisters(s, socket, tenant, sub, other);
    assert socket !in Registered(s, other);
  }

  lemma DisconnectKeepsSub(s: State, socket: Id, sub: string)
    requires RoomsSound(s) && SubSound(s, sub)
    ensures SubSound(Disconnected(s, socket), sub)
  {
    DisconnectRegisters(s, socket, sub);
    if Leaves(s, socket) && sub == s.tags[socket].sub {
      assert socket in Registered(s, sub);
    }
  }

  lemma ConnectKeepsSound(s: State, step: Step)
    requires Sound(s) && step.Connect?
    ensures Sound(Next(s, step))
  {
    if ConnectReply(s, step.socket, step.sub, step.accepts) == Accepted {
      StepKeepsRooms(s, step);
      forall sub ensures SubSound(Next(s, step), sub) {
        assert SubSound(s, sub);
        ConnectKeepsSub(s, step.socket, step.tenant, step.sub, sub);
      }
    }
  }

  lemma DisconnectKeepsSound(s: State, socket: Id)
    requires Sound(s)
    ensures Sound(Disconnected(s, socket))
  {
    StepKeepsRooms(s, Disconnect(socket));
    forall sub ensures SubSound(Disconnected(s, socket), sub) {
      assert SubSound(s, sub);
      DisconnectKeepsSub(s, socket, sub);
    }
  }

  lemma {:induction false} AlwaysSound(run: seq<Step>)
    ensures Sound(After(run))
  {
    if |run| > 0 {
      var before, step := After(run[..|run| - 1]), run[|run| - 1];
      AlwaysSound(run[..|run| - 1]);
      if step.Connect? {
        ConnectKeepsSound(before, step);
      } else {
        DisconnectKeepsSound(before, step.socket);
      }
    } else {
      forall sub ensures SubSound(Initial(), sub) {
        assert Registered(Initial(), sub) == {};
      }
    }
  }

  /**
   In every run a socket is in at most one room, that of the tenant it was accepted for; a subject's counter stays
   between 0 and 5, and never above its registered sockets unless the subject is empty.
   */
  lemma RoomsAreExclusive(run: seq<Step>, socket: Id, tenant: string, other: string)
    requires socket in RoomOf(After(run), tenant)
    ensures socket in After(run).tags && After(run).tags[socket].tenant == tenant
    ensures socket in RoomOf(After(run), other) ==> other == tenant
    ensures After(run).tags[socket].sub != "" ==>
              0 <= SubsOf(After(run), After(run).tags[socket].sub)
                <= |Registered(After(run), After(run).tags[socket].sub)|
    ensures SubsOf(After(run), After(run).tags[socket].sub) <= 5
  {
    AlwaysSound(run);
    assert SubSound(After(run), After(run).tags[socket].sub);
  }

  /** The k-th step connects the socket to the tenant's room, below the limit of its subject, and is accepted. */
  ghost predicate AcceptedAt(run: seq<Step>, k: nat, socket: Id, tenant: string) {
    && k < |run| && run[k].Connect? && run[k].socket == socket && run[k].tenant == tenant && run[k].accepts
    && socket !in After(run[..k]).tags && SubsOf(After(run[..k]), run[k].sub) < 5
  }

  /** The k-th step is accepted, and no later one disconnects the socket. */
  ghost predicate StaysFrom(run: seq<Step>, k: nat, socket: Id, tenant: string) {
    AcceptedAt(run, k, socket, tenant) && forall j | k < j < |run| :: run[j] != Disconnect(socket)
  }

  lemma {:induction false} StaysFromBefore(run: seq<Step>, k: nat, socket: Id, tenant: string)
    requires |run| > 0 && k < |run| - 1
    ensures
      StaysFrom(run, k, socket, tenant)
      <==> StaysFrom(run[..|run| - 1], k, socket, tenant) && run[|run| - 1] != Disconnect(socket)
  {
    var n := |run| - 1;
    assert run[..n][..k] == run[..k];
    if StaysFrom(run[..n], k, socket, tenant) && run[n] != Disconnect(socket) {
      forall j | k < j < |run| ensures run[j] != Disconnect(socket) {
        assert j < n ==> run[..n][j] == run[j];
      }
    }
    if StaysFrom(run, k, socket, tenant) {
      forall j | k < j < n ensures run[..n][j] != Disconnect(socket) {
        assert run[..n][j] == run[j];
      }
    }
  }

  /**
   In every run a socket is in the room of a tenant exactly if a connect to that tenant was accepted below the limit and
   no disconnect of the socket has come since.
   */
  lemma {:induction false} InRoomIff(run: seq<Step>, socket: Id, tenant: string)
    requires tenant != ""
    ensures socket in RoomOf(After(run), tenant) <==> exists k: nat :: StaysFrom(run, k, socket, tenant)
  {
    if |run| > 0 {
      var n := |run| - 1;
      var before, step := After(run[..n]), run[n];
      InRoomIff(run[..n], socket, tenant);
      AlwaysSound(run[..n]);
      StepMovesSocket(before, step, socket, tenant);
      assert StaysFrom(run, n, socket, tenant) <==> AcceptedAt(run, n, socket, tenant);
      if k: nat :| StaysFrom(run, k, socket, tenant) && k < n {
        StaysFromBefore(run, k, socket, tenant);
      }
      if k: nat :| StaysFrom(run[..n], k, socket, tenant) {
        StaysFromBefore(run, k, socket, tenant);
      }
    }
  }

  lemma {:induction false} StepMovesSocket(s: State, step: Step, socket: Id, tenant: string)
    requires Sound(s) && tenant != ""
    ensures
      socket in RoomOf(Next(s, step), tenant)
      <==>
      || (socket in RoomOf(s, tenant) && step != Disconnect(socket))
      || (step.Connect? && step.socket == socket && step.tenant == tenant && step.accepts
          && socket !in s.tags && SubsOf(s, step.sub) < 5)
  {
    match step
    case Connect(ws, t, sub, accepts) =>
      if ConnectReply(s, ws, sub, accepts) == Accepted {
        ConnectRoom(s, ws, t, sub, tenant);
      }
    case Disconnect(ws) =>
      DisconnectRoom(s, ws, tenant);
  }

  /******* When the limit is one on sockets *******/

  predicate ExactFor(s: State, sub: string) {
    SubsOf(s, sub) == |Registered(s, sub)|
  }

  /** The counters of all subjects are their registered sockets; an empty subject is never counted down. */
  ghost predicate Exact(s: State) {
    forall sub | sub != "" :: ExactFor(s, sub)
  }

  /** A disconnect that lowers the counter although its socket has left its room already. */
  predicate Spare(s: State, step: Step) {
    step.Disconnect? && Lowers(s, step.socket) && !Leaves(s, step.socket)
  }

  ghost predicate NoSpare(run: seq<Step>) {
    |run| == 0 || (NoSpare(run[..|run| - 1]) && !Spare(After(run[..|run| - 1]), run[|run| - 1]))
  }

  ghost predicate ExactThroughout(run: seq<Step>) {
    Exact(After(run)) && (|run| == 0 || ExactThroughout(run[..|run| - 1]))
  }

  lemma ConnectKeepsExact(s: State, step: Step, sub: string)
    requires RoomsSound(s) && ExactFor(s, sub) && step.Connect?
    ensures ExactFor(Next(s, step), sub)
  {
    if ConnectReply(s, step.socket, step.sub, step.accepts) == Accepted {
      ConnectRegisters(s, step.socket, step.tenant, step.sub, sub);
      assert step.socket !in Registered(s, sub);
    }
  }

  lemma DisconnectKeepsExactIff(s: State, socket: Id, sub: string)
    requires RoomsSound(s) && ExactFor(s, sub) && sub != ""
    ensures ExactFor(Disconnected(s, socket), sub) <==> !(Spare(s, Disconnect(socket)) && s.tags[socket].sub == sub)
  {
    DisconnectRegisters(s, socket, sub);
    if Leaves(s, socket) && sub == s.tags[socket].sub {
      assert socket in Registered(s, sub);
    }
  }

  lemma StepKeepsExactIff(s: State, step: Step)
    requires Sound(s) && Exact(s)
    ensures Exact(Next(s, step)) <==> !Spare(s, step)
  {
    forall sub | sub != ""
      ensures ExactFor(Next(s, step), sub) <==> !(Spare(s, step) && s.tags[step.socket].sub == sub)
    {
      assert ExactFor(s, sub);
      if step.Connect? {
        ConnectKeepsExact(s, step, sub);
      } else {
        DisconnectKeepsExactIff(s, step.socket, sub);
      }
    }
    if Spare(s, step) {
      assert !ExactFor(Next(s, step), s.tags[step.socket].sub);
    }
  }

  /**
   The counters are the registered sockets throughout a run if and only if no disconnect of the run comes for a socket
   that has left its room while its subject's counter is above zero.
   */
  lemma {:induction false} CountersExactIffNoSpare(run: seq<Step>)
    ensures ExactThroughout(run) <==> NoSpare(run)
  {
    if |run| > 0 {
      CountersExactIffNoSpare(run[..|run| - 1]);
      AlwaysSound(run[..|run| - 1]);
      if ExactThroughout(run[..|run| - 1]) {
        StepKeepsExactIff(After(run[..|run| - 1]), run[|run| - 1]);
      }
    } else {
      forall sub | sub != "" ensures ExactFor(After(run), sub) {
        assert Registered(After(run), sub) == {};
      }
    }
  }

  /** Without such a disconnect no subject has more than five registered sockets. */
  lemma AtMostFiveRegistered(run: seq<Step>, sub: string)
    requires NoSpare(run)
    ensures |Registered(After(run), sub)| <= 5
  {
    CountersExactIffNoSpare(run);
    AlwaysSound(run);
    assert SubSound(After(run), sub);
    if sub != "" {
      assert ExactFor(After(run), sub);
    }
  }

  function ConnectsOf(tenant: string, sub: string, n: nat): (r: seq<Step>)
    ensures |r| == n
  {
    seq(n, (i: nat) => Connect(i, tenant, sub, true))
  }

  /** The first n sockets are connected, all of one subject. */
  ghost predicate Filled(s: State, tenant: string, sub: string, n: nat) {
    && SubsOf(s, sub) == n && (forall i: nat :: i in s.tags <==> i < n)
    && (forall i | i in s.tags :: s.tags[i] == Tag(tenant, sub))
    && (forall i: nat :: i in RoomOf(s, tenant) <==> i < n)
  }

  lemma OneMoreFills(s: State, tenant: string, sub: string, n: nat)
    requires n < 5 && Filled(s, tenant, sub, n)
    ensures Filled(Next(s, Connect(n, tenant, sub, true)), tenant, sub, n + 1)
  {
    ConnectRoom(s, n, tenant, sub, tenant);
  }

  lemma {:induction false} ConnectsFill(tenant: string, sub: string, n: nat)
    requires n <= 5
    ensures Filled(After(ConnectsOf(tenant, sub, n)), tenant, sub, n)
  {
    if n > 0 {
      ConnectsFill(tenant, sub, n - 1);
      OneMoreFills(After(ConnectsOf(tenant, sub, n - 1)), tenant, sub, n - 1);
      assert ConnectsOf(tenant, sub, n)[..n - 1] == ConnectsOf(tenant, sub, n - 1);
    }
  }

  lemma AfterSnoc(run: seq<Step>, step: Step)
    ensures After(run + [step]) == Next(After(run), step)
  {
    assert (run + [step])[..|run|] == run;
  }

  /** Five sockets of one subject are registered, numbered from 0. */
  ghost predicate Full(s: State, tenant: string, sub: string) {
    && SubsOf(s, sub) == 5 && s.tags.Keys == {0, 1, 2, 3, 4} && RoomOf(s, tenant) == {0, 1, 2, 3, 4}
    && forall i | i in s.tags :: s.tags[i] == Tag(tenant, sub)
  }

  lemma FiveConnected(tenant: string, sub: string)
    ensures Full(After(ConnectsOf(tenant, sub, 5)), tenant, sub)
  {
    ConnectsFill(tenant, sub, 5);
    var s := After(ConnectsOf(tenant, sub, 5));
    forall i: Id ensures i in s.tags <==> i in {0, 1, 2, 3, 4} {
    }
    forall i: Id ensures i in RoomOf(s, tenant) <==> i in {0, 1, 2, 3, 4} {
    }
  }

  /** Disconnecting one of five twice: the counter says three, four are registered. */
  lemma TwiceDisconnected(s: State, tenant: string, sub: string)
    requires Full(s, tenant, sub) && tenant != "" && sub != ""
    ensures
      var s' := Disconnected(Disconnected(s, 0), 0);
      SubsOf(s', sub) == 3 && s'.tags == s.tags && |Registered(s', sub)| == 4
  {
    var s' := Disconnected(Disconnected(s, 0), 0);
    assert RoomOf(s', tenant) == {1, 2, 3, 4};
    assert Registered(s', sub) == RoomOf(s', tenant);
  }

  /** Two new sockets of a subject whose counter is three. */
  lemma TwoMoreRegistered(s: State, tenant: string, sub: string)
    requires RoomsSound(s) && SubsOf(s, sub) == 3 && 5 !in s.tags && 6 !in s.tags
    ensures
      var s1 := Next(s, Connect(5, tenant, sub, true));
      |Registered(Next(s1, Connect(6, tenant, sub, true)), sub)| == |Registered(s, sub)| + 2
  {
    var s1 := Connected(s, 5, tenant, sub);
    StepKeepsRooms(s, Connect(5, tenant, sub, true));
    ConnectRegisters(s, 5, tenant, sub, sub);
    ConnectRegisters(s1, 6, tenant, sub, sub);
    assert 5 !in Registered(s, sub) && 6 !in Registered(s1, sub);
  }

  /**
   A broadcast finds one of five sockets dead and disconnects it, its own handler disconnects it again, and the subject
   can register two sockets more: six are registered at once.
   */
  lemma DoubleDisconnectBreaksLimit(tenant: string, sub: string) returns (run: seq<Step>)
    requires tenant != "" && sub != ""
    ensures |Registered(After(run), sub)| == 6
  {
    var start := ConnectsOf(tenant, sub, 5);
    FiveConnected(tenant, sub);
    TwiceDisconnected(After(start), tenant, sub);
    var once := start + [Disconnect(0)];
    var twice := once + [Disconnect(0)];
    AfterSnoc(start, Disconnect(0));
    AfterSnoc(once, Disconnect(0));
    var five, six := Connect(5, tenant, sub, true), Connect(6, tenant, sub, true);
    run := twice + [five] + [six];
    AfterSnoc(twice, five);
    AfterSnoc(twice + [five], six);
    AlwaysSound(twice);
    TwoMoreRegistered(After(twice), tenant, sub);
  }

  /******* When the limit on sockets can be exceeded *******/

  /** What a step adds to the registered sockets of a subject beyond its counter. */
  function DriftOfStep(s: State, step: Step, sub: string): int {
    if step.Connect? || step.socket !in s.tags || s.tags[step.socket].sub != sub then 0
    else if Lowers(s, step.socket) && !Leaves(s, step.socket) then 1
    else if Leaves(s, step.socket) && !Lowers(s, step.socket) then -1
    else 0
  }

  /** Disconnects that only lowered the subject's counter, less those that only took a socket out of its room. */
  function Drift(run: seq<Step>, sub: string): int {
    if |run| == 0 then 0
    else Drift(run[..|run| - 1], sub) + DriftOfStep(After(run[..|run| - 1]), run[|run| - 1], sub)
  }

  lemma DisconnectMovesRegistered(s: State, socket: Id, sub: string)
    requires RoomsSound(s)
    ensures
      |Registered(Disconnected(s, socket), sub)| - SubsOf(Disconnected(s, socket), sub)
      == |Registered(s, sub)| - SubsOf(s, sub) + DriftOfStep(s, Disconnect(socket), sub)
  {
    DisconnectRegisters(s, socket, sub);
    if Leaves(s, socket) && sub == s.tags[socket].sub {
      assert socket in Registered(s, sub);
    }
  }

  lemma ConnectMovesRegistered(s: State, step: Step, sub: string)
    requires RoomsSound(s) && step.Connect?
    ensures |Registered(Next(s, step), sub)| - SubsOf(Next(s, step), sub) == |Registered(s, sub)| - SubsOf(s, sub)
  {
    if ConnectReply(s, step.socket, step.sub, step.accepts) == Accepted {
      ConnectRegisters(s, step.socket, step.tenant, step.sub, sub);
      assert step.socket !in Registered(s, sub);
    }
  }

  /** In every run the registered sockets of a subject are its counter and its drift. */
  lemma {:induction false} RegisteredIsCounterPlusDrift(run: seq<Step>, sub: string)
    ensures |Registered(After(run), sub)| == SubsOf(After(run), sub) + Drift(run, sub)
    ensures sub != "" ==> Drift(run, sub) >= 0
  {
    AlwaysSound(run);
    assert SubSound(After(run), sub);
    if |run| > 0 {
      RegisteredIsCounterPlusDrift(run[..|run| - 1], sub);
      AlwaysSound(run[..|run| - 1]);
      var before, step := After(run[..|run| - 1]), run[|run| - 1];
      if step.Connect? {
        ConnectMovesRegistered(before, step, sub);
      } else {
        DisconnectMovesRegistered(before, step.socket, sub);
      }
    } else {
      assert Registered(After(run), sub) == {};
    }
  }

  predicate ConnectsOnly(run: seq<Step>) {
    forall step | step in run :: step.Connect?
  }

  lemma {:induction false} ConnectsKeepDrift(run: seq<Step>, more: seq<Step>, sub: string)
    requires ConnectsOnly(more)
    ensures Drift(run + more, sub) == Drift(run, sub)
  {
    if |more| > 0 {
      var n := |more| - 1;
      ConnectsKeepDrift(run, more[..n], sub);
      assert more[n] in more && (run + more)[..|run| + n] == run + more[..n];
    } else {
      assert run + more == run;
    }
  }

  lemma {:induction false} FreshSocket(taken: set<Id>) returns (socket: Id)
    ensures forall other | other in taken :: other < socket
    decreases taken
  {
    if taken == {} {
      socket := 0;
    } else {
      var other :| other in taken;
      var above := FreshSocket(taken - {other});
      socket := if other < above then above else other + 1;
      forall o | o in taken ensures o < socket {
        assert o == other || o in taken - {other};
      }
    }
  }

  /** A new socket connects below the limit. */
  lemma ConnectRaisesCounter(run: seq<Step>, socket: Id, tenant: string, sub: string)
    requires socket !in After(run).tags && SubsOf(After(run), sub) < 5
    ensures SubsOf(After(run + [Connect(socket, tenant, sub, true)]), sub) == SubsOf(After(run), sub) + 1
  {
    AfterSnoc(run, Connect(socket, tenant, sub, true));
  }

  lemma CounterWithinLimit(run: seq<Step>, sub: string)
    ensures SubsOf(After(run), sub) <= 5
  {
    AlwaysSound(run);
    assert SubSound(After(run), sub);
  }

  /** New sockets connect until the counter is at its limit. */
  lemma {:induction false} FillUp(run: seq<Step>, tenant: string, sub: string) returns (more: seq<Step>)
    ensures ConnectsOnly(more) && SubsOf(After(run + more), sub) == 5
    decreases 5 - SubsOf(After(run), sub)
  {
    CounterWithinLimit(run, sub);
    if SubsOf(After(run), sub) == 5 {
      more := [];
      assert run + more == run;
    } else {
      var socket := FreshSocket(After(run).tags.Keys);
      var step := Connect(socket, tenant, sub, true);
      ConnectRaisesCounter(run, socket, tenant, sub);
      CounterWithinLimit(run + [step], sub);
      var rest := FillUp(run + [step], tenant, sub);
      more := [step] + rest;
      assert run + more == run + [step] + rest;
    }
  }

  predicate ExceedsBy(run: seq<Step>, more: seq<Step>, sub: string) {
    ConnectsOnly(more) && |Registered(After(run + more), sub)| > 5
  }

  /**
   After a run more than five sockets of a subject can get registered, without any further disconnect, if and only if
   the subject's drift is above zero: its disconnects have lowered the counter more often than they emptied the room.
   */
  lemma {:induction false} LimitCanBeExceededIff(run: seq<Step>, tenant: string, sub: string)
    ensures (exists more :: ExceedsBy(run, more, sub)) <==> Drift(run, sub) > 0
  {
    if more :| ExceedsBy(run, more, sub) {
      ConnectsKeepDrift(run, more, sub);
      RegisteredIsCounterPlusDrift(run + more, sub);
      AlwaysSound(run + more);
      assert SubSound(After(run + more), sub);
    }
    if Drift(run, sub) > 0 {
      var more := FillUp(run, tenant, sub);
      ConnectsKeepDrift(run, more, sub);
      RegisteredIsCounterPlusDrift(run + more, sub);
      assert ExceedsBy(run, more, sub);
    }
  }

  /******* Broadcast *******/

  function AfterDisconnects(s: State, sockets: seq<Id>): State {
    if |sockets| == 0 then s else Disconnected(AfterDisconnects(s, sockets[..|sockets| - 1]), sockets[|sockets| - 1])
  }

  /** Whatever disconnects happen, in any order and however often, each named room loses exactly the sockets named. */
  lemma {:induction false} DisconnectsEmptyRooms(s: State, sockets: seq<Id>, tenant: string)
    requires RoomsSound(s)
    ensures RoomsSound(AfterDisconnects(s, sockets)) && AfterDisconnects(s, sockets).tags == s.tags
    ensures RoomOf(AfterDisconnects(s, sockets), tenant) == if tenant == "" then RoomOf(s, tenant)
      else RoomOf(s, tenant) - Elements(sockets)
  {
    if |sockets| > 0 {
      var n := |sockets| - 1;
      var before := AfterDisconnects(s, sockets[..n]);
      DisconnectsEmptyRooms(s, sockets[..n], tenant);
      StepKeepsRooms(before, Disconnect(sockets[n]));
      DisconnectRoom(before, sockets[n], tenant);
      ElementsSnoc(sockets[..n], sockets[n]);
      assert sockets == sockets[..n] + [sockets[n]];
    }
  }

  /** The sockets seen so far are either live and served or dead. */
  ghost predicate Sorted(seen: set<Id>, live: set<Id>, sent: set<Id>, dead: set<Id>) {
    sent == seen * live && dead == seen - live
  }

  lemma SortedGrows(seen: set<Id>, live: set<Id>, sent: set<Id>, dead: set<Id>, socket: Id)
    requires Sorted(seen, live, sent, dead) && socket !in seen
    ensures Sorted(seen + {socket}, live, if socket in live then sent + {socket}
      else sent, if socket in live then dead else dead + {socket})
    ensures socket !in dead
  {
  }

  class ConnectionManager {
    var rooms: map<string, set<Id>>
    var subs: map<string, int>
    var tags: map<Id, Tag>

    function Model(): State
      reads this
    {
      State(rooms, subs, tags)
    }

    constructor ()
      ensures Model() == Initial() && Sound(Model())
    {
      rooms, subs, tags := map[], map[], map[];
      new;
      AlwaysSound([]);
    }

    method ConnectSocket(socket: Id, tenant: string, sub: string, accepts: bool) returns (reply: Reply)
      requires Sound(Model())
      modifies this
      ensures Sound(Model()) && Model() == Next(old(Model()), Connect(socket, tenant, sub, accepts))
      ensures reply == ConnectReply(old(Model()), socket, sub, accepts)
    {
      ConnectKeepsSound(Model(), Connect(socket, tenant, sub, accepts));
      var count := if sub in subs then subs[sub] else 0;
      if count >= MAX_CONNECTIONS_PER_SUB {
        return LimitReached;
      }
      if !accepts || socket in tags {
        return AcceptRaises;
      }
      var room := if tenant in rooms then rooms[tenant] else {};
      rooms := rooms[tenant := room + {socket}];
      subs := subs[sub := count + 1];
      tags := tags[socket := Tag(tenant, sub)];
      return Accepted;
    }

    method DisconnectSocket(socket: Id)
      requires Sound(Model())
      modifies this
      ensures Sound(Model()) && Model() == Next(old(Model()), Disconnect(socket))
    {
      DisconnectKeepsSound(Model(), socket);
      if socket !in tags {
        return;
      }
      var tag := tags[socket];
      if tag.tenant != "" && tag.tenant in rooms && socket in rooms[tag.tenant] {
        rooms := rooms[tag.tenant := rooms[tag.tenant] - {socket}];
      }
      if tag.sub != "" && tag.sub in subs && subs[tag.sub] > 0 {
        subs := subs[tag.sub := subs[tag.sub] - 1];
      }
    }

    /** The sends of a broadcast: who took the payload, and who was found dead. */
    method SendToRoom(tenant: string, connected: set<Id>, takes: set<Id>) returns (sent: set<Id>, dead: seq<Id>)
      ensures forall ws :: ws in sent <==> tenant in rooms && ws in rooms[tenant] && ws in connected && ws in takes
      ensures Distinct(dead) && Elements(dead) == RoomOf(Model(), tenant) - sent
    {
      var room := if tenant in rooms then rooms[tenant] else {};
      var todo := room;
      sent, dead := {}, [];
      while todo != {}
        invariant todo <= room && Distinct(dead)
        invariant Sorted(room - todo, connected * takes, sent, Elements(dead))
        decreases |todo|
      {
        var socket :| socket in todo;
        SortedGrows(room - todo, connected * takes, sent, Elements(dead), socket);
        assert room - todo + {socket} == room - (todo - {socket});
        todo := todo - {socket};
        if socket in connected && socket in takes {
          sent := sent + {socket};
        } else {
          ElementsSnoc(dead, socket);
          dead := dead + [socket];
        }
      }
      assert room - todo == room;
    }

    /**
     Sends to a snapshot of the room and disconnects the sockets that are not connected or raise. With no connect
     or disconnect beside it, exactly the sockets that took the payload stay, and no other room changes.
     */
    method Broadcast(tenant: string, connected: set<Id>, takes: set<Id>) returns (sent: set<Id>, dead: seq<Id>)
      requires Sound(Model())
      modifies this
      ensures Sound(Model()) && Model() == AfterDisconnects(old(Model()), dead)
      ensures forall ws ::
        ws in sent <==> tenant in old(rooms) && ws in old(rooms)[tenant] && ws in connected && ws in takes
      ensures Distinct(dead) && Elements(dead) == RoomOf(old(Model()), tenant) - sent
      ensures tenant != "" ==> RoomOf(Model(), tenant) == sent
      ensures forall other | other != tenant :: RoomOf(Model(), other) == RoomOf(old(Model()), other)
    {
      ghost var before := Model();
      sent, dead := SendToRoom(tenant, connected, takes);
      var i := 0;
      while i < |dead|
        invariant 0 <= i <= |dead|
        invariant Sound(Model()) && Model() == AfterDisconnects(before, dead[..i])
      {
        DisconnectSocket(dead[i]);
        i := i + 1;
        assert dead[..i][..i - 1] == dead[..i - 1];
      }
      assert dead[..i] == dead;
      OthersKeepTheirRooms(before, dead, tenant);
    }
  }

  lemma OthersKeepTheirRooms(s: State, dead: seq<Id>, tenant: string)
    requires RoomsSound(s) && Elements(dead) <= RoomOf(s, tenant)
    ensures tenant != "" ==> RoomOf(AfterDisconnects(s, dead), tenant) == RoomOf(s, tenant) - Elements(dead)
    ensures forall other | other != tenant :: RoomOf(AfterDisconnects(s, dead), other) == RoomOf(s, other)
  {
    DisconnectsEmptyRooms(s, dead, tenant);
    forall other | other != tenant ensures RoomOf(AfterDisconnects(s, dead), other) == RoomOf(s, other) {
      DisconnectsEmptyRooms(s, dead, other);
      forall ws | ws in RoomOf(s, other) ensures ws !in Elements(dead) {
        assert ws in s.tags && s.tags[ws].tenant == other;
      }
    }
  }
}
