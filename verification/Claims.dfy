/**
 At most one owner and one job per ingestion id and claim lifetime, for any interleaving of requests in which no
 release deletes a live claim that is not its own.
 */
module Claims {
  import opened Domain
  import opened Ingestion
  import opened Scheduler

  /** The call won its claim and has not given it back. */
  predicate Holds(c: Call) {
    InFlight(c) || c.phase == Queued || c.phase.Stranded?
  }

  /** The claim of the call has not run out. */
  predicate Within(c: Call, now: Time) {
    now < c.claimedAt + Days(1)
  }

  /** The call owns the id, by a claim that has not run out. */
  predicate Backs(s: State, c: Id, key: ClaimKey)
    requires c in s.calls
  {
    Holds(s.calls[c]) && KeyOf(s.calls[c].request) == key && Within(s.calls[c], s.now)
  }

  ghost predicate ClaimBacked(s: State, key: ClaimKey) {
    exists c | c in s.calls :: Backs(s, c, key)
  }

  /** Two holders of one key claimed it at least a claim's lifetime apart. */
  ghost predicate Apart(s: State, c: Id, d: Id)
    requires c in s.calls && d in s.calls
  {
    var a, b := s.calls[c], s.calls[d];
    c != d && Holds(a) && Holds(b) && KeyOf(a.request) == KeyOf(b.request) ==>
      a.claimedAt + Days(1) <= b.claimedAt || b.claimedAt + Days(1) <= a.claimedAt
  }

  ghost predicate HolderClaims(s: State, c: Id)
    requires c in s.calls
  {
    var call := s.calls[c];
    && call.claimedAt <= s.now
    && (Holds(call) && Within(call, s.now) ==>
          KeyOf(call.request) in s.claims && s.claims[KeyOf(call.request)] == call.claimedAt + Days(1))
  }

  ghost predicate ClaimsSound(s: State) {
    && (forall c | c in s.calls :: HolderClaims(s, c))
    && (forall key | key in s.claims && s.now < s.claims[key] :: ClaimBacked(s, key))
    && (forall c, d | c in s.calls && d in s.calls :: Apart(s, c, d))
  }

  /** The i-th job is that of a call that ended queued. */
  ghost predicate JobSound(s: State, i: nat)
    requires i < |s.stream|
  {
    var job := s.stream[i];
    job.call in s.calls && s.calls[job.call].phase == Queued && s.calls[job.call].request == job.request
  }

  ghost predicate HasJob(s: State, c: Id) {
    exists i | 0 <= i < |s.stream| :: s.stream[i].call == c
  }

  ghost predicate StreamSound(s: State) {
    && (forall i | 0 <= i < |s.stream| :: JobSound(s, i))
    && (forall i, j | 0 <= i < j < |s.stream| :: s.stream[i].call != s.stream[j].call)
    && (forall c | c in s.calls && s.calls[c].phase == Queued :: HasJob(s, c))
  }

  /** A failed call deletes the key of its id, of which its own claim has run out and another one is live. */
  ghost predicate Theft(s: State, step: Step) {
    && step.action.Release? && step.action.ok && Enabled(s, step)
    && var c := s.calls[step.action.call];
       !Within(c, step.at) && Live(s.claims, KeyOf(c.request), step.at)
  }

  ghost predicate NoTheft(s: State, run: seq<Step>) {
    |run| == 0 || (NoTheft(s, run[..|run| - 1]) && !Theft(After(s, run[..|run| - 1]), run[|run| - 1]))
  }

  ghost predicate SoundThroughout(s: State, run: seq<Step>) {
    ClaimsSound(After(s, run)) && (|run| == 0 || SoundThroughout(s, run[..|run| - 1]))
  }

  /** Time passing only lets claims run out. */
  lemma LaterKeepsClaims(s: State, at: Time)
    requires ClaimsSound(s) && s.now <= at
    ensures ClaimsSound(s.(now := at))
  {
    var s' := s.(now := at);
    forall c | c in s'.calls ensures HolderClaims(s', c) {
      assert HolderClaims(s, c);
    }
    forall key | key in s'.claims && s'.now < s'.claims[key] ensures ClaimBacked(s', key) {
      assert ClaimBacked(s, key);
      var c :| c in s.calls && Backs(s, c, key);
      assert HolderClaims(s, c);
    }
    forall c, d | c in s'.calls && d in s'.calls ensures Apart(s', c, d) {
      assert Apart(s, c, d);
    }
  }

  /** A call that moves between phases in which it holds its claim. */
  lemma MoveKeepsClaims(s: State, c: Id, phase: Phase)
    requires ClaimsSound(s) && c in s.calls
    requires Holds(s.calls[c]) && Holds(s.calls[c].(phase := phase))
    ensures ClaimsSound(Moved(s, c, phase))
  {
    var s' := Moved(s, c, phase);
    forall d | d in s'.calls ensures HolderClaims(s', d) {
      assert HolderClaims(s, d);
    }
    forall key | key in s'.claims && s'.now < s'.claims[key] ensures ClaimBacked(s', key) {
      assert ClaimBacked(s, key);
      var d :| d in s.calls && Backs(s, d, key);
      assert Backs(s', d, key);
    }
    forall d, e | d in s'.calls && e in s'.calls ensures Apart(s', d, e) {
      assert Apart(s, d, e);
    }
  }

  /** A call that holds nothing joins. */
  lemma IdleCallKeepsClaims(s: State, c: Id, call: Call)
    requires ClaimsSound(s) && c !in s.calls && !Holds(call) && call.claimedAt <= s.now
    ensures ClaimsSound(s.(calls := s.calls[c := call]))
  {
    var s' := s.(calls := s.calls[c := call]);
    forall d | d in s'.calls ensures HolderClaims(s', d) {
      assert d == c || HolderClaims(s, d);
    }
    forall key | key in s'.claims && s'.now < s'.claims[key] ensures ClaimBacked(s', key) {
      assert ClaimBacked(s, key);
      var d :| d in s.calls && Backs(s, d, key);
      assert Backs(s', d, key);
    }
    forall d, e | d in s'.calls && e in s'.calls ensures Apart(s', d, e) {
      assert d == c || e == c || Apart(s, d, e);
    }
  }

  /** A call joins that has just won the claim of a key without a live one. */
  lemma OwnerKeepsClaims(s: State, c: Id, r: Request)
    requires ClaimsSound(s) && c !in s.calls && !Live(s.claims, KeyOf(r), s.now)
    ensures
      ClaimsSound(s.(claims := s.claims[KeyOf(r) := s.now + Days(1)],
                     calls := s.calls[c := Call(r, s.now, Claimed)]))
  {
    var call := Call(r, s.now, Claimed);
    var s' := s.(claims := s.claims[KeyOf(r) := s.now + Days(1)], calls := s.calls[c := call]);
    forall d | d in s'.calls ensures HolderClaims(s', d) {
      assert d == c || HolderClaims(s, d);
    }
    forall key | key in s'.claims && s'.now < s'.claims[key] ensures ClaimBacked(s', key) {
      if key == KeyOf(r) {
        assert Backs(s', c, key);
      } else {
        assert ClaimBacked(s, key);
        var d :| d in s.calls && Backs(s, d, key);
        assert Backs(s', d, key);
      }
    }
    forall d, e | d in s'.calls && e in s'.calls ensures Apart(s', d, e) {
      assert d in s.calls ==> HolderClaims(s, d);
      assert e in s.calls ==> HolderClaims(s, e);
      assert d == c || e == c || Apart(s, d, e);
    }
  }

  lemma {:induction false} BeginKeepsClaims(s: State, step: Step)
    requires ClaimsSound(s) && Enabled(s, step) && step.action.Begin? && s.now == step.at
    ensures ClaimsSound(Effect(s, step))
  {
    var c, r, s' := step.action.call, step.action.request, Effect(s, step);
    if s'.calls[c].phase.Claimed? {
      OwnerKeepsClaims(s, c, r);
      assert s' == s.(claims := s.claims[KeyOf(r) := s.now + Days(1)],
                      calls := s.calls[c := Call(r, s.now, Claimed)]);
    } else {
      IdleCallKeepsClaims(s, c, s'.calls[c]);
      assert s' == s.(calls := s.calls[c := s'.calls[c]]);
    }
  }

  lemma ReleaseKeepsClaims(s: State, c: Id)
    requires ClaimsSound(s) && c in s.calls && s.calls[c].phase.Releasing?
    requires Within(s.calls[c], s.now) || !Live(s.claims, KeyOf(s.calls[c].request), s.now)
    ensures ClaimsSound(Effect(s, Step(Release(c, true), s.now)))
  {
    var s' := Effect(s, Step(Release(c, true), s.now));
    assert HolderClaims(s, c);
    forall d | d in s'.calls ensures HolderClaims(s', d) {
      assert HolderClaims(s, d) && Apart(s, c, d);
    }
    forall key | key in s'.claims && s'.now < s'.claims[key] ensures ClaimBacked(s', key) {
      assert ClaimBacked(s, key);
      var d :| d in s.calls && Backs(s, d, key);
      assert Backs(s', d, key);
    }
    forall d, e | d in s'.calls && e in s'.calls ensures Apart(s', d, e) {
      assert Apart(s, d, e);
    }
  }

  /** The call whose claim is live is left without it. */
  lemma TheftBreaksClaims(s: State, c: Id)
    requires ClaimsSound(s) && Theft(s, Step(Release(c, true), s.now))
    ensures !ClaimsSound(Effect(s, Step(Release(c, true), s.now)))
  {
    var s', key := Effect(s, Step(Release(c, true), s.now)), KeyOf(s.calls[c].request);
    assert ClaimBacked(s, key);
    var d :| d in s.calls && Backs(s, d, key);
    assert s'.calls[d] == s.calls[d] && !HolderClaims(s', d);
  }

  lemma {:induction false} NextKeepsClaimsIff(s: State, step: Step)
    requires ClaimsSound(s)
    ensures ClaimsSound(Next(s, step)) <==> !Theft(s, step)
  {
    if Enabled(s, step) {
      LaterKeepsClaims(s, step.at);
      var later := s.(now := step.at);
      match step.action
      case Begin(_, _, _, _) =>
        BeginKeepsClaims(later, step);
      case Check(c, reached) =>
        MoveKeepsClaims(later, c, CheckMode(s.modes, s.calls[c].request, step.at, reached));
      case Upload(c, ok) =>
        MoveKeepsClaims(later, c, if ok then Uploaded(s.calls[c].phase.checkedAt) else Releasing(Unavailable));
      case Enqueue(c, ok) =>
        MoveKeepsClaims(later, c, if ok then Queued else Releasing(Unavailable));
        ClaimsIgnoreRest(Moved(later, c, if ok then Queued else Releasing(Unavailable)), Next(s, step));
      case Release(c, ok) =>
        if Theft(s, step) {
          TheftBreaksClaims(later, c);
        } else if ok {
          ReleaseKeepsClaims(later, c);
        } else {
          MoveKeepsClaims(later, c, Stranded(s.calls[c].phase.error));
        }
      case Pass(_, _) =>
        ClaimsIgnoreRest(later, Next(s, step));
    }
  }

  lemma ClaimsIgnoreRest(s: State, s': State)
    requires ClaimsSound(s) && s'.now == s.now && s'.claims == s.claims && s'.calls == s.calls
    ensures ClaimsSound(s')
  {
    forall c | c in s'.calls ensures HolderClaims(s', c) {
      assert HolderClaims(s, c);
    }
    forall key | key in s'.claims && s'.now < s'.claims[key] ensures ClaimBacked(s', key) {
      assert ClaimBacked(s, key);
    }
    forall c, d | c in s'.calls && d in s'.calls ensures Apart(s', c, d) {
      assert Apart(s, c, d);
    }
  }

  lemma EnqueueKeepsStream(s: State, c: Id, at: Time)
    requires StreamSound(s) && c in s.calls && s.calls[c].phase.Uploaded? && s.now <= at
    ensures StreamSound(Next(s, Step(Enqueue(c, true), at)))
  {
    var s' := Next(s, Step(Enqueue(c, true), at));
    var n := |s.stream|;
    forall i | 0 <= i < n ensures s.stream[i].call != c && JobSound(s', i) {
      assert JobSound(s, i);
    }
    forall d | d in s'.calls && s'.calls[d].phase == Queued ensures HasJob(s', d) {
      if d == c {
        assert s'.stream[n].call == c;
      } else {
        assert HasJob(s, d);
        var i :| 0 <= i < n && s.stream[i].call == d;
        assert s'.stream[i].call == d;
      }
    }
  }

  /** No job, and no call that starts or stops being queued. */
  lemma SameJobsKeepStream(s: State, s': State)
    requires StreamSound(s) && s'.stream == s.stream
    requires forall c | c in s.calls && s.calls[c].phase == Queued :: c in s'.calls && s'.calls[c] == s.calls[c]
    requires forall c | c in s'.calls && s'.calls[c].phase == Queued :: c in s.calls && s'.calls[c] == s.calls[c]
    ensures StreamSound(s')
  {
    forall i | 0 <= i < |s'.stream| ensures JobSound(s', i) {
      assert JobSound(s, i);
    }
    forall c | c in s'.calls && s'.calls[c].phase == Queued ensures HasJob(s', c) {
      assert HasJob(s, c);
    }
  }

  lemma NextKeepsStream(s: State, step: Step)
    requires StreamSound(s)
    ensures StreamSound(Next(s, step))
  {
    if Enabled(s, step) && step.action.Enqueue? && step.action.ok {
      EnqueueKeepsStream(s, step.action.call, step.at);
    } else {
      SameJobsKeepStream(s, Next(s, step));
    }
  }

  /**
   The claims are sound throughout a run, so that the live ones are exactly those of their holders and an id has one
   owner, if and only if no release of the run deletes a live claim after the claim of its own call has run out.
   */
  lemma {:induction false} ClaimsSoundIffNoTheft(s: State, run: seq<Step>)
    requires Initial(s)
    ensures SoundThroughout(s, run) <==> NoTheft(s, run)
  {
    if |run| > 0 {
      ClaimsSoundIffNoTheft(s, run[..|run| - 1]);
      if SoundThroughout(s, run[..|run| - 1]) {
        NextKeepsClaimsIff(After(s, run[..|run| - 1]), run[|run| - 1]);
      }
    }
  }

  lemma {:induction false} StreamAlwaysSound(s: State, run: seq<Step>)
    requires Initial(s)
    ensures StreamSound(After(s, run))
  {
    if |run| > 0 {
      StreamAlwaysSound(s, run[..|run| - 1]);
      NextKeepsStream(After(s, run[..|run| - 1]), run[|run| - 1]);
    }
  }

  /**
   The live claims are exactly the ids of the calls in flight, the ids queued and the ids whose release
   failed, each for the lifetime of its claim; and no two such calls share an id.
   */
  lemma {:induction false} LiveClaimsAreExact(s: State, run: seq<Step>, key: ClaimKey)
    requires Initial(s) && NoTheft(s, run)
    ensures Live(After(s, run).claims, key, After(s, run).now) <==> ClaimBacked(After(s, run), key)
    ensures
      var s' := After(s, run);
      forall c, d | c in s'.calls && d in s'.calls :: Backs(s', c, key) && Backs(s', d, key) ==> c == d
  {
    ClaimsSoundIffNoTheft(s, run);
    var s' := After(s, run);
    if ClaimBacked(s', key) {
      var c :| c in s'.calls && Backs(s', c, key);
      assert HolderClaims(s', c);
    }
    forall c, d | c in s'.calls && d in s'.calls && Backs(s', c, key) && Backs(s', d, key) ensures c == d {
      assert Apart(s', c, d) && HolderClaims(s', c) && HolderClaims(s', d);
    }
  }

  /** At most one job of an id is queued per claim lifetime: two jobs of one id come from claims a lifetime apart. */
  lemma QueuedAtMostOncePerLifetime(s: State, run: seq<Step>, i: nat, j: nat)
    requires Initial(s) && NoTheft(s, run) && i < j < |After(s, run).stream|
    requires KeyOf(After(s, run).stream[i].request) == KeyOf(After(s, run).stream[j].request)
    ensures
      var s' := After(s, run);
      && s'.stream[i].call in s'.calls && s'.stream[j].call in s'.calls
      && var a, b := s'.calls[s'.stream[i].call].claimedAt, s'.calls[s'.stream[j].call].claimedAt;
      a + Days(1) <= b || b + Days(1) <= a
  {
    ClaimsSoundIffNoTheft(s, run);
    StreamAlwaysSound(s, run);
    var s' := After(s, run);
    assert JobSound(s', i) && JobSound(s', j);
    assert Apart(s', s'.stream[i].call, s'.stream[j].call);
  }

  /** Another call owns the id at this instant. */
  ghost predicate OthersBack(s: State, c: Id, key: ClaimKey, at: Time) {
    exists d | d in s.calls && d != c :: Backs(s.(now := at), d, key)
  }

  /**
   A failed owner that gives its claim back leaves things as if it had never come: the live claims are exactly those
   of the other calls, and the stream is as it was. A retry that meets no failure then queues exactly one job, and owns
   the id, exactly if the requested mode is the camera's active one; if not, it leaves the same behind.
   */
  lemma {:induction false} FailedOwnerCanRetry(s: State, run: seq<Step>, c: Id, at: Time, retry: Id, later: Time)
    requires Initial(s) && NoTheft(s, run)
    requires
      var s' := After(s, run);
      && s'.now <= at <= later && c in s'.calls && s'.calls[c].phase.Releasing? && retry !in s'.calls
      && !Theft(s', Step(Release(c, true), at))
    ensures
      var s' := After(s, run);
      var freed, r := Next(s', Step(Release(c, true), at)), s'.calls[c].request;
      var done := After(freed, SoloRun(retry, Auth(r.tenant, r.camera), r, Plan(true, true, true, true, true), later));
      var active := ActiveMode(s'.modes, r.camera, later) == Some(r.mode);
      && freed.stream == s'.stream && (forall key :: Live(freed.claims, key, at) <==> OthersBack(s', c, key, at))
      && done.stream == (if active then s'.stream + [Job(retry, r, later)] else s'.stream)
      && (forall key :: Live(done.claims, key, later) <==>
            Live(freed.claims, key, later) || (active && key == KeyOf(r)))
  {
    var s' := After(s, run);
    var freed, r := Next(s', Step(Release(c, true), at)), s'.calls[c].request;
    ClaimsSoundIffNoTheft(s, run);
    NextKeepsClaimsIff(s', Step(Release(c, true), at));
    forall key ensures Live(freed.claims, key, at) <==> OthersBack(s', c, key, at) {
      BackedByOthers(s', c, at, key);
    }
    SoloRunEffect(freed, retry, Auth(r.tenant, r.camera), r, Plan(true, true, true, true, true), later);
  }

  lemma BackedByOthers(s: State, c: Id, at: Time, key: ClaimKey)
    requires s.now <= at && c in s.calls && s.calls[c].phase.Releasing?
    requires ClaimsSound(Next(s, Step(Release(c, true), at)))
    ensures Live(Next(s, Step(Release(c, true), at)).claims, key, at) <==> OthersBack(s, c, key, at)
  {
    var freed := Next(s, Step(Release(c, true), at));
    if Live(freed.claims, key, at) {
      assert ClaimBacked(freed, key);
      var d :| d in freed.calls && Backs(freed, d, key);
      assert d != c && Backs(s.(now := at), d, key);
    }
    if OthersBack(s, c, key, at) {
      var d :| d in s.calls && d != c && Backs(s.(now := at), d, key);
      assert HolderClaims(freed, d);
    }
  }

  /******* Where claims and calls come from *******/

  /** The call was not turned away: its token is its own and its id was free. */
  predicate Took(c: Call) {
    !c.phase.Mismatch? && !c.phase.Duplicate?
  }

  /** The claim lasts a day from when some request of this tenant and id took it. */
  ghost predicate ClaimTaken(s: State, key: ClaimKey)
    requires key in s.claims
  {
    exists d | d in s.calls ::
      && s.calls[d].request.tenant == key.tenant && s.calls[d].request.ingestion == key.ingestion
      && Took(s.calls[d]) && s.calls[d].claimedAt <= s.now && s.claims[key] == s.calls[d].claimedAt + Days(1)
  }

  /** Another request of the same tenant and id took the id less than a day before. */
  ghost predicate HasOwner(s: State, c: Id)
    requires c in s.calls
  {
    exists d | d in s.calls && d != c ::
      && s.calls[d].request.tenant == s.calls[c].request.tenant
      && s.calls[d].request.ingestion == s.calls[c].request.ingestion
      && Took(s.calls[d]) && s.calls[d].claimedAt <= s.calls[c].claimedAt < s.calls[d].claimedAt + Days(1)
  }

  ghost predicate OwnersKnown(s: State) {
    && (forall key | key in s.claims :: ClaimTaken(s, key))
    && (forall c | c in s.calls && s.calls[c].phase.Duplicate? :: HasOwner(s, c))
  }

  /** Calls keep their request and their instant, and none that took its id is turned away later. */
  ghost predicate CallsGrow(s: State, s': State) {
    && s.now <= s'.now
    && forall c | c in s.calls ::
         && c in s'.calls && s'.calls[c].request == s.calls[c].request
         && s'.calls[c].claimedAt == s.calls[c].claimedAt
         && (s.calls[c].phase.Duplicate? <==> s'.calls[c].phase.Duplicate?)
         && (s.calls[c].phase.Mismatch? <==> s'.calls[c].phase.Mismatch?)
  }

  /** A call that moves on from a phase in flight to another phase that is no refusal. */
  lemma {:induction false} MovedGrowsCalls(s: State, s': State, c: Id, phase: Phase)
    requires c in s.calls && InFlight(s.calls[c]) && !phase.Mismatch? && !phase.Duplicate?
    requires s'.calls == Moved(s, c, phase).calls && s.now <= s'.now
    ensures CallsGrow(s, s')
  {
  }

  lemma {:induction false} NextGrowsCalls(s: State, step: Step)
    ensures CallsGrow(s, Next(s, step))
  {
    if Enabled(s, step) && !step.action.Begin? && !step.action.Pass? {
      var c, s' := step.action.call, Next(s, step);
      assert s'.calls == s.calls[c := s'.calls[c]];
      MovedGrowsCalls(s, s', c, s'.calls[c].phase);
    }
  }

  lemma {:induction false} ClaimStaysTaken(s: State, s': State, key: ClaimKey)
    requires CallsGrow(s, s') && key in s.claims && key in s'.claims && s'.claims[key] == s.claims[key]
    requires ClaimTaken(s, key)
    ensures ClaimTaken(s', key)
  {
    var d :| d in s.calls
             && s.calls[d].request.tenant == key.tenant && s.calls[d].request.ingestion == key.ingestion
             && Took(s.calls[d]) && s.calls[d].claimedAt <= s.now && s.claims[key] == s.calls[d].claimedAt + Days(1);
    assert d in s'.calls && Took(s'.calls[d]);
  }

  lemma {:induction false} OwnerStays(s: State, s': State, c: Id)
    requires CallsGrow(s, s') && c in s.calls && HasOwner(s, c)
    ensures HasOwner(s', c)
  {
    var d :| d in s.calls && d != c
             && s.calls[d].request.tenant == s.calls[c].request.tenant
             && s.calls[d].request.ingestion == s.calls[c].request.ingestion
             && Took(s.calls[d]) && s.calls[d].claimedAt <= s.calls[c].claimedAt < s.calls[d].claimedAt + Days(1);
    assert d in s'.calls && Took(s'.calls[d]);
  }

  lemma {:induction false} BeginHasOwner(s: State, step: Step)
    requires OwnersKnown(s) && Enabled(s, step) && step.action.Begin?
    requires Next(s, step).calls[step.action.call].phase.Duplicate?
    ensures HasOwner(Next(s, step), step.action.call)
  {
    var c, r, s' := step.action.call, step.action.request, Next(s, step);
    assert ClaimTaken(s, KeyOf(r));
    var d :| d in s.calls
             && s.calls[d].request.tenant == r.tenant && s.calls[d].request.ingestion == r.ingestion
             && Took(s.calls[d]) && s.calls[d].claimedAt <= s.now
             && s.claims[KeyOf(r)] == s.calls[d].claimedAt + Days(1);
    assert s'.calls[d] == s.calls[d] && d != c;
  }

  /** A claim is as old as it was, or has just been taken by the call that begins. */
  lemma {:induction false} NextTakesOneClaim(s: State, step: Step, key: ClaimKey)
    requires key in Next(s, step).claims
    ensures
      var s' := Next(s, step);
      || (key in s.claims && s'.claims[key] == s.claims[key])
      || (&& step.action.Begin? && step.action.call in s'.calls && key == KeyOf(step.action.request)
          && s'.calls[step.action.call] == Call(step.action.request, s'.now, Claimed)
          && s'.claims[key] == s'.now + Days(1))
  {
  }

  lemma {:induction false} NextKeepsTaken(s: State, step: Step, key: ClaimKey)
    requires OwnersKnown(s) && CallsGrow(s, Next(s, step)) && key in Next(s, step).claims
    ensures ClaimTaken(Next(s, step), key)
  {
    var s' := Next(s, step);
    NextTakesOneClaim(s, step, key);
    if key in s.claims && s'.claims[key] == s.claims[key] {
      ClaimStaysTaken(s, s', key);
    } else {
      assert Took(s'.calls[step.action.call]);
    }
  }

  /** Only a call that begins is answered as a duplicate. */
  lemma {:induction false} NewCallBegins(s: State, step: Step, c: Id)
    requires c in Next(s, step).calls && c !in s.calls
    ensures Enabled(s, step) && step.action.Begin? && c == step.action.call
  {
  }

  lemma {:induction false} NextKeepsOwners(s: State, step: Step)
    requires OwnersKnown(s)
    ensures OwnersKnown(Next(s, step))
  {
    var s' := Next(s, step);
    NextGrowsCalls(s, step);
    forall key | key in s'.claims ensures ClaimTaken(s', key) {
      NextKeepsTaken(s, step, key);
    }
    forall c | c in s'.calls && s'.calls[c].phase.Duplicate? ensures HasOwner(s', c) {
      if c in s.calls {
        OwnerStays(s, s', c);
      } else {
        NewCallBegins(s, step, c);
        BeginHasOwner(s, step);
      }
    }
  }

  /**
   In every run, whatever is deleted, a claim was taken by a request of its tenant and id and lasts a day from then; and
   a request is answered as a duplicate only if another one of the same tenant and id took the id less than a day
   before.
   */
  lemma {:induction false} DuplicatesHaveAnOwner(s: State, run: seq<Step>)
    requires Initial(s)
    ensures OwnersKnown(After(s, run))
  {
    if |run| > 0 {
      DuplicatesHaveAnOwner(s, run[..|run| - 1]);
      NextKeepsOwners(After(s, run[..|run| - 1]), run[|run| - 1]);
    }
  }

  /** The k-th step began the call, which was turned away as mismatched exactly if its token is not of its camera. */
  ghost predicate BegunAt(s: State, run: seq<Step>, k: nat, c: Id) {
    var calls := After(s, run).calls;
    && k < |run| && run[k].action.Begin? && run[k].action.call == c && c in calls
    && calls[c].request == run[k].action.request && calls[c].claimedAt == run[k].at
    && var auth, r := run[k].action.auth, run[k].action.request;
       calls[c].phase.Mismatch? <==> !(auth.tenant == r.tenant && auth.camera == r.camera)
  }

  /**
   Every call goes back to the step that began it, with its request: it is mismatched if and only if the token is of
   another tenant or camera than the request.
   */
  lemma {:induction false} CallsWereBegun(s: State, run: seq<Step>, c: Id)
    requires Initial(s) && c in After(s, run).calls
    ensures exists k: nat :: BegunAt(s, run, k, c)
  {
    if |run| > 0 {
      var n := |run| - 1;
      var before := After(s, run[..n]);
      if c in before.calls {
        CallsWereBegun(s, run[..n], c);
        var k: nat :| BegunAt(s, run[..n], k, c);
        NextGrowsCalls(before, run[n]);
        assert BegunAt(s, run, k, c);
      } else {
        NewCallBegins(before, run[n], c);
        assert BegunAt(s, run, n, c);
      }
    }
  }

  /** A release that comes too late deletes the claim of another request, and two requests own one id. */
  lemma {:induction false} LateReleaseBreaksOwnership(s: State, auth: Auth, r: Request) returns (run: seq<Step>)
    requires Initial(s) && s.now <= 0 && auth == Auth(r.tenant, r.camera)
    ensures
      var s' := After(s, run);
      && s'.calls.Keys == {0, 1, 2} && s'.calls[1] == Call(r, Days(1), Claimed)
      && s'.calls[2] == Call(r, Days(1) + 1, Claimed) && s'.now == Days(1) + 1
  {
    var late := Days(1);
    var s0, s1 := Step(Begin(0, auth, r, true), 0), Step(Begin(1, auth, r, true), late);
    var s2, s3 := Step(Check(0, false), late), Step(Release(0, true), late);
    var s4 := Step(Begin(2, auth, r, true), late + 1);
    run := [s0, s1, s2, s3, s4];
    FiveSteps(s, run);
    var w1 := Next(Next(s, s0), s1);
    assert w1.calls == map[0 := Call(r, 0, Claimed), 1 := Call(r, late, Claimed)] && w1.now == late;
    var w3 := Next(Next(w1, s2), s3);
    assert w3.calls[1] == w1.calls[1] && w3.now == late && KeyOf(r) !in w3.claims;
  }
}
