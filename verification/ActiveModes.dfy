/**
 What a queued sequence's mode says: passes of the scheduler set it, it was set recently enough when it was
 checked, and it is set exactly while some pass of the last day set it for an active schedule.
 */
module ActiveModes {
  import opened Domain
  import opened Scheduler
  import opened Ingestion

  /** The pass found an active schedule of the assignment and came to set it. */
  ghost predicate Sets(tick: Tick, a: Assignment) {
    a in Activated(tick.config, tick.config.schedules) && a in Reached(tick.config, tick.brokenAt)
  }

  /** A pass less than a mode's lifetime before `at` set the camera's assigned mode for an active schedule. */
  ghost predicate Justified(ticks: seq<Tick>, camera: Id, mode: Id, at: Time) {
    exists j | 0 <= j < |ticks| ::
      ticks[j].at <= at < ticks[j].at + Days(1) && Sets(ticks[j], Assignment(mode, camera))
  }

  ghost predicate ModeSound(s: State, camera: Id)
    requires camera in s.modes
  {
    exists j | 0 <= j < |s.ticks| ::
      && s.ticks[j].at <= s.now && s.modes[camera].expiresAt == s.ticks[j].at + Days(1)
      && Sets(s.ticks[j], Assignment(s.modes[camera].mode, camera))
  }

  ghost predicate CallJustified(s: State, c: Id)
    requires c in s.calls
  {
    s.calls[c].phase.Checked? || s.calls[c].phase.Uploaded? ==>
      Justified(s.ticks, s.calls[c].request.camera, s.calls[c].request.mode, s.calls[c].phase.checkedAt)
  }

  ghost predicate JobJustified(s: State, job: Job) {
    Justified(s.ticks, job.request.camera, job.request.mode, job.checkedAt)
  }

  ghost predicate ModesSound(s: State) {
    && (forall camera | camera in s.modes :: ModeSound(s, camera))
    && (forall c | c in s.calls :: CallJustified(s, c))
    && (forall job | job in s.stream :: JobJustified(s, job))
  }

  lemma JustifiedGrows(ticks: seq<Tick>, tick: Tick, camera: Id, mode: Id, at: Time)
    requires Justified(ticks, camera, mode, at)
    ensures Justified(ticks + [tick], camera, mode, at)
  {
    var j :| 0 <= j < |ticks| && ticks[j].at <= at < ticks[j].at + Days(1)
             && Sets(ticks[j], Assignment(mode, camera));
    assert (ticks + [tick])[j] == ticks[j];
  }

  /** The mode map after one more pass. */
  ghost function TickedOn(modes: Modes, tick: Tick): Modes
    requires ValidConfig(tick.config)
  {
    ModesAfter(modes, tick.config, tick.brokenAt, tick.at)
  }

  /** The entry of a camera that the pass has set is that of the pass. */
  lemma {:induction false} PassSetsMode(s: State, tick: Tick, a: Assignment)
    requires ValidConfig(tick.config) && a in Reached(tick.config, tick.brokenAt)
    ensures a.camera in TickedOn(s.modes, tick)
    ensures ModeSound(s.(now := tick.at, modes := TickedOn(s.modes, tick), ticks := s.ticks + [tick]), a.camera)
  {
    var s' := s.(now := tick.at, modes := TickedOn(s.modes, tick), ticks := s.ticks + [tick]);
    ReachedIsActivated(tick.config, tick.brokenAt);
    assert s'.ticks[|s.ticks|] == tick && Sets(tick, a);
    assert a == Assignment(s'.modes[a.camera].mode, a.camera);
  }

  /** The entry of any other camera stays as it was. */
  lemma {:induction false} PassLeavesMode(modes: Modes, tick: Tick, camera: Id)
    requires ValidConfig(tick.config) && forall a | a in Reached(tick.config, tick.brokenAt) :: a.camera != camera
    ensures SameEntry(modes, TickedOn(modes, tick), camera)
  {
  }

  /** An entry that stays is as sound as it was. */
  lemma {:induction false} SameModeStaysSound(s: State, s': State, tick: Tick, camera: Id)
    requires camera in s.modes && ModeSound(s, camera) && SameEntry(s.modes, s'.modes, camera)
    requires s'.ticks == s.ticks + [tick] && s.now <= s'.now
    ensures ModeSound(s', camera)
  {
    var j :| 0 <= j < |s.ticks| && s.ticks[j].at <= s.now && s.modes[camera].expiresAt == s.ticks[j].at + Days(1)
             && Sets(s.ticks[j], Assignment(s.modes[camera].mode, camera));
    assert s'.ticks[j] == s.ticks[j];
  }

  lemma {:induction false} PassKeepsMode(s: State, tick: Tick, camera: Id)
    requires ModesSound(s) && ValidConfig(tick.config) && s.now <= tick.at
    requires camera in TickedOn(s.modes, tick)
    ensures ModeSound(s.(now := tick.at, modes := TickedOn(s.modes, tick), ticks := s.ticks + [tick]), camera)
  {
    var s' := s.(now := tick.at, modes := TickedOn(s.modes, tick), ticks := s.ticks + [tick]);
    if a :| a in Reached(tick.config, tick.brokenAt) && a.camera == camera {
      PassSetsMode(s, tick, a);
    } else {
      PassLeavesMode(s.modes, tick, camera);
      SameModeStaysSound(s, s', tick, camera);
    }
  }

  lemma PassKeepsModes(s: State, config: Config, brokenAt: Option<nat>, at: Time)
    requires ModesSound(s) && ValidConfig(config) && s.now <= at
    ensures ModesSound(Next(s, Step(Pass(config, brokenAt), at)))
  {
    var s', tick := Next(s, Step(Pass(config, brokenAt), at)), Tick(config, brokenAt, at);
    forall camera | camera in s'.modes ensures ModeSound(s', camera) {
      PassKeepsMode(s, tick, camera);
    }
    forall c | c in s'.calls ensures CallJustified(s', c) {
      assert CallJustified(s, c);
      if s.calls[c].phase.Checked? || s.calls[c].phase.Uploaded? {
        var call := s.calls[c];
        JustifiedGrows(s.ticks, tick, call.request.camera, call.request.mode, call.phase.checkedAt);
      }
    }
    forall job | job in s'.stream ensures JobJustified(s', job) {
      assert JobJustified(s, job);
      JustifiedGrows(s.ticks, tick, job.request.camera, job.request.mode, job.checkedAt);
    }
  }

  lemma CheckKeepsModes(s: State, c: Id, reached: bool, at: Time)
    requires ModesSound(s) && c in s.calls && s.now <= at
    ensures CallJustified(Moved(s, c, CheckMode(s.modes, s.calls[c].request, at, reached)), c)
  {
    var r := s.calls[c].request;
    if CheckMode(s.modes, r, at, reached).Checked? {
      assert ModeSound(s, r.camera);
      var j :| 0 <= j < |s.ticks| && s.ticks[j].at <= s.now && s.modes[r.camera].expiresAt == s.ticks[j].at + Days(1)
               && Sets(s.ticks[j], Assignment(s.modes[r.camera].mode, r.camera));
      assert Justified(s.ticks, r.camera, r.mode, at);
    }
  }

  /** Calls that keep their check, and one new job at most, of a call that was justified. */
  lemma SameTicksKeepModes(s: State, s': State)
    requires ModesSound(s) && s'.ticks == s.ticks && s'.modes == s.modes && s.now <= s'.now
    requires forall c | c in s'.calls && c !in s.calls :: CallJustified(s', c)
    requires forall c | c in s'.calls && c in s.calls :: CallJustified(s, c) ==> CallJustified(s', c)
    requires forall job | job in s'.stream && job !in s.stream :: JobJustified(s, job)
    ensures ModesSound(s')
  {
    forall camera | camera in s'.modes ensures ModeSound(s', camera) {
      assert ModeSound(s, camera);
    }
    forall c | c in s'.calls ensures CallJustified(s', c) {
      assert c in s.calls ==> CallJustified(s, c);
    }
    forall job | job in s'.stream ensures JobJustified(s', job) {
      assert job in s.stream ==> JobJustified(s, job);
    }
  }

  lemma CheckStepKeepsModes(s: State, c: Id, reached: bool, at: Time)
    requires ModesSound(s) && Enabled(s, Step(Check(c, reached), at))
    ensures ModesSound(Next(s, Step(Check(c, reached), at)))
  {
    CheckKeepsModes(s, c, reached, at);
    SameTicksKeepModes(s, Next(s, Step(Check(c, reached), at)));
  }

  lemma UploadedStepsKeepModes(s: State, step: Step)
    requires ModesSound(s) && Enabled(s, step) && (step.action.Enqueue? || step.action.Upload?)
    ensures ModesSound(Next(s, step))
  {
    assert CallJustified(s, step.action.call);
    SameTicksKeepModes(s, Next(s, step));
  }

  lemma BeginKeepsModes(s: State, step: Step)
    requires ModesSound(s) && Enabled(s, step) && step.action.Begin?
    ensures ModesSound(Next(s, step))
  {
    SameTicksKeepModes(s, Next(s, step));
  }

  lemma ReleaseKeepsModes(s: State, step: Step)
    requires ModesSound(s) && Enabled(s, step) && step.action.Release?
    ensures ModesSound(Next(s, step))
  {
    SameTicksKeepModes(s, Next(s, step));
  }

  lemma {:induction false} NextKeepsModes(s: State, step: Step)
    requires ModesSound(s)
    ensures ModesSound(Next(s, step))
  {
    if Enabled(s, step) {
      match step.action
      case Pass(config, brokenAt) => PassKeepsModes(s, config, brokenAt, step.at);
      case Check(c, reached) => CheckStepKeepsModes(s, c, reached, step.at);
      case Enqueue(_, _) => UploadedStepsKeepModes(s, step);
      case Upload(_, _) => UploadedStepsKeepModes(s, step);
      case Begin(_, _, _, _) => BeginKeepsModes(s, step);
      case Release(_, _) => ReleaseKeepsModes(s, step);
    }
  }

  /**
   Every queued sequence's mode was set for its camera by a pass less than 86400 s before the check, at which an active
   schedule of the camera's assigned mode existed, whatever passes were cut short.
   */
  lemma {:induction false} QueuedModesAreJustified(s: State, run: seq<Step>)
    requires Initial(s)
    ensures ModesSound(After(s, run))
  {
    if |run| > 0 {
      QueuedModesAreJustified(s, run[..|run| - 1]);
      NextKeepsModes(After(s, run[..|run| - 1]), run[|run| - 1]);
    }
  }

  /******* How long a mode stays set *******/

  /** The mode map after these passes over an empty one. */
  ghost function ModesFrom(ticks: seq<Tick>): Modes
    requires forall j | 0 <= j < |ticks| :: ValidConfig(ticks[j].config)
  {
    if |ticks| == 0 then map[]
    else TickedOn(ModesFrom(ticks[..|ticks| - 1]), ticks[|ticks| - 1])
  }

  /** Passes in order of time, over configurations that assign the camera the same mode. */
  ghost predicate SteadyTicks(ticks: seq<Tick>, a: Assignment) {
    && (forall j | 0 <= j < |ticks| :: ValidConfig(ticks[j].config) && a in ticks[j].config.assignments)
    && (forall i, j | 0 <= i < j < |ticks| :: ticks[i].at <= ticks[j].at)
  }

  /** The pass set the assignment, and what it set is live at the instant. */
  ghost predicate SetsUntil(tick: Tick, a: Assignment, at: Time) {
    Sets(tick, a) && at < tick.at + Days(1)
  }

  ghost predicate RecentlySet(ticks: seq<Tick>, a: Assignment, at: Time) {
    exists j | 0 <= j < |ticks| :: SetsUntil(ticks[j], a, at)
  }

  /** The last pass sets the camera's mode: its entry decides. */
  lemma {:induction false} LastTickSets(ticks: seq<Tick>, a: Assignment, at: Time)
    requires |ticks| > 0 && SteadyTicks(ticks, a) && Sets(ticks[|ticks| - 1], a)
    ensures a.camera in ModesFrom(ticks)
    ensures ModesFrom(ticks)[a.camera] == ModeEntry(a.mode, ticks[|ticks| - 1].at + Days(1))
    ensures RecentlySet(ticks, a, at) <==> at < ticks[|ticks| - 1].at + Days(1)
  {
  }

  lemma {:induction false} RecentlySetBefore(ticks: seq<Tick>, a: Assignment, at: Time)
    requires |ticks| > 0 && !SetsUntil(ticks[|ticks| - 1], a, at)
    ensures RecentlySet(ticks, a, at) <==> RecentlySet(ticks[..|ticks| - 1], a, at)
  {
    var front := ticks[..|ticks| - 1];
    if RecentlySet(ticks, a, at) {
      var j :| 0 <= j < |ticks| && SetsUntil(ticks[j], a, at);
      assert front[j] == ticks[j];
    }
    if RecentlySet(front, a, at) {
      var j :| 0 <= j < |front| && SetsUntil(front[j], a, at);
      assert front[j] == ticks[j];
    }
  }

  /** A pass that does not set the camera's assignment leaves its entry alone. */
  lemma IdleTickLeaves(modes: Modes, tick: Tick, a: Assignment)
    requires ValidConfig(tick.config) && a in tick.config.assignments && !Sets(tick, a)
    ensures SameEntry(modes, TickedOn(modes, tick), a.camera)
  {
    ReachedIsActivated(tick.config, tick.brokenAt);
    OneAssignmentPerCamera(tick.config);
  }

  /** The last pass does not: nothing changes for the camera. */
  lemma {:induction false} LastTickLeaves(ticks: seq<Tick>, a: Assignment, at: Time)
    requires |ticks| > 0 && SteadyTicks(ticks, a) && !Sets(ticks[|ticks| - 1], a)
    ensures SameEntry(ModesFrom(ticks[..|ticks| - 1]), ModesFrom(ticks), a.camera)
    ensures RecentlySet(ticks, a, at) <==> RecentlySet(ticks[..|ticks| - 1], a, at)
  {
    var n := |ticks| - 1;
    assert ValidConfig(ticks[n].config) && a in ticks[n].config.assignments;
    IdleTickLeaves(ModesFrom(ticks[..n]), ticks[n], a);
    RecentlySetBefore(ticks, a, at);
  }

  /**
   With the assignment unchanged, a camera's mode is set at an instant exactly when some pass less than 86400 s before
   found an active schedule and came to set it, and it is then the assigned mode. So it outlives every window of its
   schedules: it stays set for a full day after the last pass inside one.
   */
  lemma {:induction false} ModeIsSetIffRecentlySet(ticks: seq<Tick>, a: Assignment, at: Time)
    requires SteadyTicks(ticks, a) && (forall j | 0 <= j < |ticks| :: ticks[j].at <= at)
    ensures ActiveMode(ModesFrom(ticks), a.camera, at) == if RecentlySet(ticks, a, at) then Some(a.mode) else None
  {
    if |ticks| > 0 {
      if Sets(ticks[|ticks| - 1], a) {
        LastTickSets(ticks, a, at);
      } else {
        LastTickLeaves(ticks, a, at);
        ModeIsSetIffRecentlySet(ticks[..|ticks| - 1], a, at);
      }
    }
  }

  /**
   From a pass inside a window of a schedule, that comes to set the mode, to the end of that window the mode stays set
   without a gap, whatever passes follow, cut short or not: no window is longer than a mode's lifetime.
   */
  lemma {:induction false} ModeStaysSetThroughWindow(ticks: seq<Tick>, a: Assignment, s: Schedule, j: nat, at: Time)
    requires SteadyTicks(ticks, a) && j < |ticks| && (forall i | 0 <= i < |ticks| :: ticks[i].at <= at)
    requires ValidSchedule(s) && s in ticks[j].config.schedules && Activates(ticks[j].config, s, a)
    requires a in Reached(ticks[j].config, ticks[j].brokenAt) && at - ticks[j].at <= Length(s)
    ensures ActiveMode(ModesFrom(ticks), a.camera, at) == Some(a.mode)
  {
    assert IsActivated(ticks[j].config, ticks[j].config.schedules, a);
    assert Sets(ticks[j], a);
    ModeIsSetIffRecentlySet(ticks, a, at);
  }

  ghost predicate ModesComeFromTicks(s: State) {
    (forall j | 0 <= j < |s.ticks| :: ValidConfig(s.ticks[j].config)) && s.modes == ModesFrom(s.ticks)
  }

  lemma ModesFromAppend(ticks: seq<Tick>, tick: Tick)
    requires (forall j | 0 <= j < |ticks| :: ValidConfig(ticks[j].config)) && ValidConfig(tick.config)
    ensures forall j | 0 <= j < |ticks + [tick]| :: ValidConfig((ticks + [tick])[j].config)
    ensures ModesFrom(ticks + [tick]) == TickedOn(ModesFrom(ticks), tick)
  {
    assert (ticks + [tick])[..|ticks|] == ticks;
  }

  /** Only a pass moves the modes. */
  lemma OtherStepsLeaveModes(s: State, step: Step)
    requires !step.action.Pass?
    ensures Next(s, step).modes == s.modes && Next(s, step).ticks == s.ticks
  {
  }

  lemma {:induction false} NextModesComeFromTicks(s: State, step: Step)
    requires ModesComeFromTicks(s)
    ensures ModesComeFromTicks(Next(s, step))
  {
    if !step.action.Pass? {
      OtherStepsLeaveModes(s, step);
    } else if Enabled(s, step) {
      ModesFromAppend(s.ticks, Tick(step.action.config, step.action.brokenAt, step.at));
    }
  }

  /** The mode map of a run is that of its passes. */
  lemma {:induction false} RunModesComeFromTicks(s: State, run: seq<Step>)
    requires Initial(s)
    ensures ModesComeFromTicks(After(s, run))
  {
    if |run| > 0 {
      RunModesComeFromTicks(s, run[..|run| - 1]);
      NextModesComeFromTicks(After(s, run[..|run| - 1]), run[|run| - 1]);
    }
  }
}
