/**
 Activation of context modes from weekly schedules. A schedule is active on one cyclic interval of the
 week, and a pass over all schedules and assignments computes a set of cameras: neither the mode map nor
 the count depends on the order of the rows.
 */
module Scheduler {
  import opened Domain
  import opened Sums

  const DAYS := 7
  const ACTIVE_MODE_TTL_SECS := 86_400

  function Days(n: int): Time {
    Seconds(86_400 * n)
  }

  /** A duration modulo one week. */
  function ModWeek(t: Time): (r: Time)
    ensures 0 <= r < Days(7) && (-Days(7) <= t < Days(7) ==> r == if t < 0 then t + Days(7) else t)
  {
    t % 604_800_000_000
  }

  datatype ScheduleDay = Mon | Tue | Wed | Thu | Fri | Sat | Sun

  /** A local wall-clock reading: weekday 0 is Monday. */
  datatype LocalTime = LocalTime(weekday: int, time: Time)

  datatype Schedule = Schedule(mode: Id, day: ScheduleDay, start: Time, end: Time, market: Option<Id>)

  datatype Assignment = Assignment(mode: Id, camera: Id)

  predicate ValidTime(t: Time) {
    0 <= t < Days(1)
  }

  predicate ValidLocal(l: LocalTime) {
    0 <= l.weekday < DAYS && ValidTime(l.time)
  }

  predicate ValidSchedule(s: Schedule) {
    ValidTime(s.start) && ValidTime(s.end)
  }

  function DayMap(weekday: int): ScheduleDay
    requires 0 <= weekday < DAYS
  {
    [Mon, Tue, Wed, Thu, Fri, Sat, Sun][weekday]
  }

  predicate IsWithinSchedule(start: Time, end: Time, current: Time) {
    if start <= end then start <= current <= end else current >= start || current <= end
  }

  predicate MatchesMarket(scheduleMarket: Option<Id>, cameraMarket: Id) {
    scheduleMarket.None? || scheduleMarket.value == cameraMarket
  }

  /** The weekday branches of the pass: an interval that wraps past midnight belongs to the day it starts on. */
  predicate DayMatches(s: Schedule, local: LocalTime)
    requires ValidLocal(local)
  {
    var currentDay := DayMap(local.weekday);
    var previousDay := DayMap((local.weekday - 1) % DAYS);
    if s.start <= s.end then currentDay == s.day
    else (currentDay == s.day && local.time >= s.start) || (previousDay == s.day && local.time <= s.end)
  }

  predicate IsActive(s: Schedule, local: LocalTime)
    requires ValidLocal(local)
  {
    DayMatches(s, local) && IsWithinSchedule(s.start, s.end, local.time)
  }

  /******* A schedule is a cyclic interval of the week *******/

  function DayNumber(d: ScheduleDay): nat {
    match d
    case Mon => 0
    case Tue => 1
    case Wed => 2
    case Thu => 3
    case Fri => 4
    case Sat => 5
    case Sun => 6
  }

  function TimeOfWeek(local: LocalTime): Time {
    Days(local.weekday) + local.time
  }

  function LocalAt(timeOfWeek: Time): (local: LocalTime)
    requires 0 <= timeOfWeek < Days(7)
    ensures ValidLocal(local) && TimeOfWeek(local) == timeOfWeek
  {
    LocalTime(timeOfWeek / 86_400_000_000, timeOfWeek % 86_400_000_000)
  }

  function OpensAt(s: Schedule): Time {
    Days(DayNumber(s.day)) + s.start
  }

  function Length(s: Schedule): Time {
    if s.start <= s.end then s.end - s.start else s.end + Days(1) - s.start
  }

  /**
   The branches are a cyclic interval: a schedule is active exactly when the time since it opened, modulo
   a week, is at most its length, also from Sunday night into Monday morning.
   */
  lemma ActiveIffInCyclicInterval(s: Schedule, local: LocalTime)
    requires ValidSchedule(s) && ValidLocal(local)
    ensures IsActive(s, local) <==> ModWeek(TimeOfWeek(local) - OpensAt(s)) <= Length(s)
  {
    var n, d := local.weekday, DayNumber(s.day);
    assert (n - 1) % DAYS == if n == 0 then 6 else n - 1;
    assert DayMap(n) == s.day <==> n == d;
    var diff := TimeOfWeek(local) - OpensAt(s);
    assert diff == Days(n - d) + (local.time - s.start);
    assert ModWeek(diff) == if diff < 0 then diff + Days(7) else diff;
  }

  /** The time of week `o` ticks after `start`. */
  function TickAfter(start: Time, o: Time): Time {
    ModWeek(start + o)
  }

  lemma {:induction false} TicksAreDistinct(start: Time, n: nat)
    requires n <= Days(7)
    ensures |set o | 0 <= o < n :: TickAfter(start, o)| == n
  {
    if n == 0 {
      assert (set o | 0 <= o < n :: TickAfter(start, o)) == {};
    } else {
      TicksAreDistinct(start, n - 1);
      var before := set o | 0 <= o < n - 1 :: TickAfter(start, o);
      forall o | 0 <= o < n - 1 ensures TickAfter(start, o) != TickAfter(start, n - 1) {
        DistinctResidues(start + o, start + (n - 1));
      }
      assert (set o | 0 <= o < n :: TickAfter(start, o)) == before + {TickAfter(start, n - 1)};
    }
  }

  lemma DistinctResidues(a: Time, b: Time)
    requires a < b < a + Days(7)
    ensures ModWeek(a) != ModWeek(b)
  {
  }

  /** The offset of a time of week from `start` leads back to it, and is the only one within a week. */
  lemma OffsetOfTick(start: Time, t: Time)
    requires 0 <= t < Days(7)
    ensures TickAfter(start, ModWeek(t - start)) == t
    ensures forall o | 0 <= o < Days(7) && TickAfter(start, o) == t :: o == ModWeek(t - start)
  {
    var q := (t - start) / 604_800_000_000;
    assert ModWeek(t - start) == t - start - 604_800_000_000 * q;
    assert start + ModWeek(t - start) == t - 604_800_000_000 * q;
    forall o | 0 <= o < Days(7) && TickAfter(start, o) == t ensures o == ModWeek(t - start) {
      var p := (start + o) / 604_800_000_000;
      assert start + o == 604_800_000_000 * p + t;
    }
  }

  /** On the clock's ticks, every schedule is active for exactly its length plus one tick of every week. */
  lemma ActiveTicksPerWeek(s: Schedule)
    requires ValidSchedule(s)
    ensures |set t | 0 <= t < Days(7) && IsActive(s, LocalAt(t))| == Length(s) + 1
  {
    var active := set t | 0 <= t < Days(7) && IsActive(s, LocalAt(t));
    var ticks := set o | 0 <= o < Length(s) + 1 :: TickAfter(OpensAt(s), o);
    forall t | 0 <= t < Days(7) ensures t in active <==> t in ticks {
      ActiveIffInCyclicInterval(s, LocalAt(t));
      OffsetOfTick(OpensAt(s), t);
      assert t in active ==> TickAfter(OpensAt(s), ModWeek(t - OpensAt(s))) in ticks;
    }
    assert active == ticks;
    TicksAreDistinct(OpensAt(s), Length(s) + 1);
  }

  /******* One pass *******/

  /**
   What a pass reads: the rows, and the local readings of one instant. `locals` has the markets that exist;
   a schedule without a market, or with one that does not exist, is read in UTC.
   */
  datatype Config = Config(
    schedules: seq<Schedule>,
    assignments: seq<Assignment>,
    cameraMarkets: map<Id, Id>,
    locals: map<Id, LocalTime>,
    utc: LocalTime)

  /** Readings are well formed, assigned cameras exist, and no camera is assigned twice. */
  ghost predicate ValidConfig(c: Config) {
    && ValidLocal(c.utc) && (forall m | m in c.locals :: ValidLocal(c.locals[m]))
    && (forall a | a in c.assignments :: a.camera in c.cameraMarkets)
    && (forall i, j | 0 <= i < j < |c.assignments| :: c.assignments[i].camera != c.assignments[j].camera)
  }

  function LocalOf(c: Config, s: Schedule): LocalTime {
    if s.market.Some? && s.market.value in c.locals then c.locals[s.market.value] else c.utc
  }

  predicate ActiveIn(c: Config, s: Schedule) {
    ValidLocal(LocalOf(c, s)) && IsActive(s, LocalOf(c, s))
  }

  /** The pair of rows activates a camera. */
  predicate Activates(c: Config, s: Schedule, a: Assignment) {
    && ActiveIn(c, s) && a.mode == s.mode
    && a.camera in c.cameraMarkets && MatchesMarket(s.market, c.cameraMarkets[a.camera])
  }

  /** A key of the active-mode map. */
  datatype ModeEntry = ModeEntry(mode: Id, expiresAt: Time)

  type Modes = map<Id, ModeEntry>

  function ActivationsOf(c: Config, s: Schedule, assignments: seq<Assignment>): int {
    SumBy(assignments, a => if Activates(c, s, a) then 1 else 0)
  }

  /** The number of pairs of a schedule and an assignment that activate a camera. */
  function ActivatingPairs(c: Config, schedules: seq<Schedule>, assignments: seq<Assignment>): int {
    SumBy(schedules, s => ActivationsOf(c, s, assignments))
  }

  /** One of these schedules activates the assignment's camera: it is active, of its mode and of its market. */
  predicate IsActivated(c: Config, schedules: seq<Schedule>, a: Assignment) {
    exists s | s in schedules :: Activates(c, s, a)
  }

  /** The assignments that these schedules activate. */
  function Activated(c: Config, schedules: seq<Schedule>): set<Assignment> {
    set a | a in c.assignments && IsActivated(c, schedules, a)
  }

  /** The assignments among these that one schedule activates. */
  function ActivatedBy(c: Config, s: Schedule, assignments: seq<Assignment>): set<Assignment> {
    set a | a in assignments && Activates(c, s, a)
  }

  /**
   The schedule covers the camera of the assignment: it is of the assigned mode, of the camera's market or of none, and
   the time since it opened, on its market's clock or else in UTC, is at most its length.
   */
  ghost predicate Covers(c: Config, s: Schedule, a: Assignment)
    requires ValidConfig(c) && a in c.assignments
  {
    && s.mode == a.mode && (s.market == None || s.market == Some(c.cameraMarkets[a.camera]))
    && var local :=
         if s.market == None || s.market.value !in c.locals then c.utc else c.locals[s.market.value];
       ModWeek(TimeOfWeek(local) - OpensAt(s)) <= Length(s)
  }

  /** A pass activates exactly the assignments that one of its schedules covers. */
  lemma ActivatedIffCovered(c: Config, a: Assignment)
    requires ValidConfig(c) && a in c.assignments && forall s | s in c.schedules :: ValidSchedule(s)
    ensures a in Activated(c, c.schedules) <==> exists s | s in c.schedules :: Covers(c, s, a)
  {
    forall s | s in c.schedules ensures Activates(c, s, a) <==> Covers(c, s, a) {
      ActiveIffInCyclicInterval(s, LocalOf(c, s));
    }
  }

  predicate SameEntry(modes: Modes, modes': Modes, camera: Id) {
    (camera in modes <==> camera in modes') && (camera in modes ==> modes[camera] == modes'[camera])
  }

  /** `modes` is `before` overridden, at exactly the cameras of these assignments, by their modes set at an instant. */
  ghost predicate Overridden(before: Modes, modes: Modes, activated: set<Assignment>, at: Time) {
    && (forall a | a in activated ::
          a.camera in modes && modes[a.camera] == ModeEntry(a.mode, at + Days(1)))
    && (forall camera | (forall a | a in activated :: a.camera != camera) :: SameEntry(before, modes, camera))
  }

  /******* The order of a pass *******/

  /** The assignments that one schedule sets, in the order of the loop. */
  function SettingsOf(c: Config, s: Schedule, assignments: seq<Assignment>): seq<Assignment> {
    if |assignments| == 0 then []
    else
      var a := assignments[|assignments| - 1];
      SettingsOf(c, s, assignments[..|assignments| - 1]) + if Activates(c, s, a) then [a] else []
  }

  /** The assignments that a complete pass sets, in the order of the loop, one for every activating pair of rows. */
  function Settings(c: Config, schedules: seq<Schedule>): seq<Assignment> {
    if |schedules| == 0 then []
    else Settings(c, schedules[..|schedules| - 1]) + SettingsOf(c, schedules[|schedules| - 1], c.assignments)
  }

  /** The pass is cut short: the SET of this number, counted from 0, raises. */
  predicate CutShort(c: Config, brokenAt: Option<nat>) {
    brokenAt.Some? && brokenAt.value < |Settings(c, c.schedules)|
  }

  /** The assignments that a pass has set: all that are activated, or those before the SET that raises. */
  function Reached(c: Config, brokenAt: Option<nat>): set<Assignment> {
    if CutShort(c, brokenAt) then Elements(Settings(c, c.schedules)[..brokenAt.value]) else Activated(c, c.schedules)
  }

  lemma {:induction false} SettingsOfAre(c: Config, s: Schedule, assignments: seq<Assignment>)
    ensures |SettingsOf(c, s, assignments)| == ActivationsOf(c, s, assignments)
    ensures Elements(SettingsOf(c, s, assignments)) == ActivatedBy(c, s, assignments)
  {
    if |assignments| > 0 {
      var n := |assignments| - 1;
      var a := assignments[n];
      SettingsOfAre(c, s, assignments[..n]);
      assert assignments == assignments[..n] + [a];
      ElementsSnoc(SettingsOf(c, s, assignments[..n]), a);
      assert ActivatedBy(c, s, assignments)
          == ActivatedBy(c, s, assignments[..n]) + if Activates(c, s, a) then {a} else {};
      assert SettingsOf(c, s, assignments[..n]) + [] == SettingsOf(c, s, assignments[..n]);
    }
  }

  /** A complete pass sets the activated assignments, one for every activating pair. */
  lemma {:induction false} SettingsAre(c: Config, schedules: seq<Schedule>)
    ensures |Settings(c, schedules)| == ActivatingPairs(c, schedules, c.assignments)
    ensures Elements(Settings(c, schedules)) == Activated(c, schedules)
  {
    if |schedules| > 0 {
      var n := |schedules| - 1;
      SettingsAre(c, schedules[..n]);
      SettingsOfAre(c, schedules[n], c.assignments);
      assert schedules == schedules[..n] + [schedules[n]];
      assert Activated(c, schedules) == Activated(c, schedules[..n]) + ActivatedBy(c, schedules[n], c.assignments);
    }
  }

  /** What a pass reaches is activated. */
  lemma ReachedIsActivated(c: Config, brokenAt: Option<nat>)
    ensures Reached(c, brokenAt) <= Activated(c, c.schedules)
  {
    SettingsAre(c, c.schedules);
    if CutShort(c, brokenAt) {
      forall a | a in Reached(c, brokenAt) ensures a in Elements(Settings(c, c.schedules)) {
        assert a in Settings(c, c.schedules)[..brokenAt.value];
      }
    }
  }

  lemma {:induction false} SettingsOfPrefix(c: Config, s: Schedule, assignments: seq<Assignment>, j: nat)
    requires j <= |assignments|
    ensures SettingsOf(c, s, assignments[..j]) <= SettingsOf(c, s, assignments)
  {
    if j < |assignments| {
      var n := |assignments| - 1;
      SettingsOfPrefix(c, s, assignments[..n], j);
      assert assignments[..n][..j] == assignments[..j];
    } else {
      assert assignments[..j] == assignments;
    }
  }

  lemma {:induction false} SettingsPrefix(c: Config, schedules: seq<Schedule>, i: nat)
    requires i <= |schedules|
    ensures Settings(c, schedules[..i]) <= Settings(c, schedules)
  {
    if i < |schedules| {
      var n := |schedules| - 1;
      SettingsPrefix(c, schedules[..n], i);
      assert schedules[..n][..i] == schedules[..i];
    } else {
      assert schedules[..i] == schedules;
    }
  }

  /** What the loops have set before the j-th assignment of the i-th schedule. */
  function SetSoFar(c: Config, i: nat, j: nat): seq<Assignment>
    requires i < |c.schedules| && j <= |c.assignments|
  {
    Settings(c, c.schedules[..i]) + SettingsOf(c, c.schedules[i], c.assignments[..j])
  }

  lemma SetSoFarIsPrefix(c: Config, i: nat, j: nat)
    requires i < |c.schedules| && j <= |c.assignments|
    ensures SetSoFar(c, i, j) <= Settings(c, c.schedules)
  {
    SettingsOfPrefix(c, c.schedules[i], c.assignments, j);
    assert c.schedules[..i + 1][..i] == c.schedules[..i];
    SettingsPrefix(c, c.schedules, i + 1);
  }

  lemma SetOneMore(c: Config, i: nat, j: nat)
    requires i < |c.schedules| && j < |c.assignments|
    ensures
      SetSoFar(c, i, j + 1)
      == SetSoFar(c, i, j) + if Activates(c, c.schedules[i], c.assignments[j]) then [c.assignments[j]] else []
  {
    assert c.assignments[..j + 1][..j] == c.assignments[..j];
  }

  lemma ScheduleDone(c: Config, i: nat)
    requires i < |c.schedules|
    ensures SetSoFar(c, i, |c.assignments|) == Settings(c, c.schedules[..i + 1])
    ensures !ActiveIn(c, c.schedules[i]) ==> Settings(c, c.schedules[..i + 1]) == Settings(c, c.schedules[..i])
  {
    assert c.assignments[..|c.assignments|] == c.assignments;
    assert c.schedules[..i + 1][..i] == c.schedules[..i];
    if !ActiveIn(c, c.schedules[i]) {
      InactiveSetsNothing(c, c.schedules[i], c.assignments);
    }
  }

  lemma {:induction false} InactiveSetsNothing(c: Config, s: Schedule, assignments: seq<Assignment>)
    requires !ActiveIn(c, s)
    ensures SettingsOf(c, s, assignments) == []
  {
    if |assignments| > 0 {
      InactiveSetsNothing(c, s, assignments[..|assignments| - 1]);
    }
  }

  /** The settings of a pass that is cut short: the next one is the SET that raises. */
  lemma CutShortHere(c: Config, i: nat, j: nat)
    requires i < |c.schedules| && j < |c.assignments| && Activates(c, c.schedules[i], c.assignments[j])
    ensures
      var k := |SetSoFar(c, i, j)|;
      CutShort(c, Some(k)) && Reached(c, Some(k)) == Elements(SetSoFar(c, i, j))
  {
    SetOneMore(c, i, j);
    SetSoFarIsPrefix(c, i, j);
    SetSoFarIsPrefix(c, i, j + 1);
    assert Settings(c, c.schedules)[..|SetSoFar(c, i, j)|] == SetSoFar(c, i, j);
  }

  /** A pass that has reached all of its settings without the SET that raises. */
  lemma {:induction false} CompletePass(c: Config, brokenAt: Option<nat>)
    requires brokenAt.Some? ==> |Settings(c, c.schedules)| <= brokenAt.value
    ensures !CutShort(c, brokenAt) && Reached(c, brokenAt) == Elements(Settings(c, c.schedules))
    ensures |Settings(c, c.schedules)| == ActivatingPairs(c, c.schedules, c.assignments)
  {
    SettingsAre(c, c.schedules);
  }

  lemma SettingsAreAssigned(c: Config, i: nat, j: nat)
    requires i < |c.schedules| && j <= |c.assignments|
    ensures forall a | a in Elements(SetSoFar(c, i, j)) :: a in c.assignments
  {
    SetSoFarIsPrefix(c, i, j);
    SettingsAre(c, c.schedules);
    forall a | a in Elements(SetSoFar(c, i, j)) ensures a in c.assignments {
      assert a in SetSoFar(c, i, j);
      assert a in Settings(c, c.schedules);
      assert a in Elements(Settings(c, c.schedules));
    }
  }

  lemma OverriddenByOneMore(before: Modes, modes: Modes, activated: set<Assignment>, a: Assignment, c: Config, at: Time)
    requires ValidConfig(c) && a in c.assignments && (forall b | b in activated :: b in c.assignments)
    requires Overridden(before, modes, activated, at)
    ensures
      var entry := ModeEntry(a.mode, at + Seconds(ACTIVE_MODE_TTL_SECS));
      Overridden(before, modes[a.camera := entry], activated + {a}, at)
  {
    var modes' := modes[a.camera := ModeEntry(a.mode, at + Seconds(ACTIVE_MODE_TTL_SECS))];
    forall b | b in activated && b.camera == a.camera ensures b == a {
      var j :| 0 <= j < |c.assignments| && c.assignments[j] == a;
      var k :| 0 <= k < |c.assignments| && c.assignments[k] == b;
    }
    forall camera | (forall b | b in activated + {a} :: b.camera != camera) ensures SameEntry(before, modes', camera) {
      assert forall b | b in activated :: b in activated + {a};
      assert a in activated + {a};
      assert SameEntry(before, modes, camera);
    }
  }

  /** The next SET overrides one camera more. */
  lemma OneSetMore(before: Modes, modes: Modes, c: Config, i: nat, j: nat, at: Time)
    requires ValidConfig(c) && i < |c.schedules| && j < |c.assignments|
    requires Activates(c, c.schedules[i], c.assignments[j])
    requires Overridden(before, modes, Elements(SetSoFar(c, i, j)), at)
    ensures
      var a := c.assignments[j];
      var entry := ModeEntry(a.mode, at + Seconds(ACTIVE_MODE_TTL_SECS));
      Overridden(before, modes[a.camera := entry], Elements(SetSoFar(c, i, j + 1)), at)
  {
    SetOneMore(c, i, j);
    SettingsAreAssigned(c, i, j);
    ElementsSnoc(SetSoFar(c, i, j), c.assignments[j]);
    OverriddenByOneMore(before, modes, Elements(SetSoFar(c, i, j)), c.assignments[j], c, at);
  }

  class ModeScheduler {
    var modes: Modes

    constructor ()
      ensures modes == map[]
    {
      modes := map[];
    }

    /** The inner loop, over the assignments of an active schedule; true when a SET raises. */
    method ActivateAssignments(ghost before: Modes, c: Config, i: nat, brokenAt: Option<nat>, start: nat, at: Time)
      returns (count: nat, broken: bool)
      requires ValidConfig(c) && i < |c.schedules| && ActiveIn(c, c.schedules[i])
      requires start == |Settings(c, c.schedules[..i])| && (brokenAt.Some? ==> start <= brokenAt.value)
      requires Overridden(before, modes, Elements(Settings(c, c.schedules[..i])), at)
      modifies this
      ensures broken ==> CutShort(c, brokenAt) && Overridden(before, modes, Reached(c, brokenAt), at)
      ensures
        !broken ==>
          && count == |SetSoFar(c, i, |c.assignments|)| && (brokenAt.Some? ==> count <= brokenAt.value)
          && Overridden(before, modes, Elements(SetSoFar(c, i, |c.assignments|)), at)
    {
      var schedule := c.schedules[i];
      count, broken := start, false;
      var j := 0;
      assert SetSoFar(c, i, 0) == Settings(c, c.schedules[..i]);
      while j < |c.assignments|
        invariant 0 <= j <= |c.assignments|
        invariant count == |SetSoFar(c, i, j)|
        invariant brokenAt.Some? ==> count <= brokenAt.value
        invariant Overridden(before, modes, Elements(SetSoFar(c, i, j)), at)
      {
        var assignment := c.assignments[j];
        SetOneMore(c, i, j);
        if assignment.mode == schedule.mode && MatchesMarket(schedule.market, c.cameraMarkets[assignment.camera]) {
          if brokenAt == Some(count) {
            CutShortHere(c, i, j);
            return count, true;
          }
          OneSetMore(before, modes, c, i, j, at);
          modes := modes[assignment.camera := ModeEntry(schedule.mode, at + Seconds(ACTIVE_MODE_TTL_SECS))];
          count := count + 1;
        }
        j := j + 1;
      }
    }

    /**
     The nested loop over schedules and assignments. A complete pass sets exactly the cameras whose assigned mode has an
     active schedule of their market, and counts the pairs of rows that did. When a SET raises, what the pass has set
     before it stays set, and it returns nothing.
     */
    method ActivateScheduledModes(c: Config, brokenAt: Option<nat>, at: Time) returns (activated: Option<int>)
      requires ValidConfig(c)
      modifies this
      ensures
        activated == if CutShort(c, brokenAt) then None else Some(ActivatingPairs(c, c.schedules, c.assignments))
      ensures Overridden(old(modes), modes, Reached(c, brokenAt), at)
    {
      var count := 0;
      var i := 0;
      while i < |c.schedules|
        invariant 0 <= i <= |c.schedules|
        invariant count == |Settings(c, c.schedules[..i])|
        invariant brokenAt.Some? ==> count <= brokenAt.value
        invariant Overridden(old(modes), modes, Elements(Settings(c, c.schedules[..i])), at)
      {
        var schedule := c.schedules[i];
        var localNow := LocalOf(c, schedule);
        if DayMatches(schedule, localNow) && IsWithinSchedule(schedule.start, schedule.end, localNow.time) {
          var broken;
          count, broken := ActivateAssignments(old(modes), c, i, brokenAt, count, at);
          if broken {
            return None;
          }
        }
        ScheduleDone(c, i);
        i := i + 1;
      }
      assert c.schedules[..i] == c.schedules;
      CompletePass(c, brokenAt);
      return Some(count);
    }
  }

  /** Overriding leaves no choice: the resulting map is determined. */
  lemma OverriddenIsUnique(before: Modes, m1: Modes, m2: Modes, activated: set<Assignment>, at: Time)
    requires Overridden(before, m1, activated, at) && Overridden(before, m2, activated, at)
    ensures m1 == m2
  {
    forall camera ensures SameEntry(m1, m2, camera) {
      if forall a | a in activated :: a.camera != camera {
        assert SameEntry(before, m1, camera) && SameEntry(before, m2, camera);
      }
    }
    assert m1.Keys == m2.Keys by {
      forall camera ensures camera in m1.Keys <==> camera in m2.Keys {
        assert SameEntry(m1, m2, camera);
      }
    }
    forall camera | camera in m1 ensures m1[camera] == m2[camera] {
      assert SameEntry(m1, m2, camera);
    }
  }

  /** The count and the activated assignments do not depend on the order of the rows. */
  lemma ActivationIgnoresOrder(c: Config, c': Config)
    requires c' == c.(schedules := c'.schedules, assignments := c'.assignments)
    requires multiset(c.schedules) == multiset(c'.schedules) && multiset(c.assignments) == multiset(c'.assignments)
    ensures ActivatingPairs(c, c.schedules, c.assignments) == ActivatingPairs(c', c'.schedules, c'.assignments)
    ensures Activated(c, c.schedules) == Activated(c', c'.schedules)
  {
    forall s ensures ActivationsOf(c, s, c.assignments) == ActivationsOf(c', s, c'.assignments) {
      var f: Assignment -> int := a => if Activates(c, s, a) then 1 else 0;
      var f': Assignment -> int := a => if Activates(c', s, a) then 1 else 0;
      SumPermuted(c.assignments, c'.assignments, f);
      SumAgrees(c'.assignments, f, f');
      assert ActivationsOf(c, s, c.assignments) == SumBy(c.assignments, f) by {
        SumAgrees(c.assignments, f, a => if Activates(c, s, a) then 1 else 0);
      }
      assert ActivationsOf(c', s, c'.assignments) == SumBy(c'.assignments, f') by {
        SumAgrees(c'.assignments, f', a => if Activates(c', s, a) then 1 else 0);
      }
    }
    var g: Schedule -> int := s => ActivationsOf(c, s, c.assignments);
    var g': Schedule -> int := s => ActivationsOf(c', s, c'.assignments);
    SumPermuted(c.schedules, c'.schedules, g);
    SumAgrees(c'.schedules, g, g');
    assert ActivatingPairs(c, c.schedules, c.assignments) == SumBy(c.schedules, g) by {
      SumAgrees(c.schedules, g, s => ActivationsOf(c, s, c.assignments));
    }
    assert ActivatingPairs(c', c'.schedules, c'.assignments) == SumBy(c'.schedules, g') by {
      SumAgrees(c'.schedules, g', s => ActivationsOf(c', s, c'.assignments));
    }
    SameElements(c.schedules, c'.schedules);
    SameElements(c.assignments, c'.assignments);
    forall a ensures IsActivated(c, c.schedules, a) <==> IsActivated(c', c'.schedules, a) {
      SameActivations(c, c', a);
    }
  }

  lemma SameElements<T>(xs: seq<T>, ys: seq<T>)
    requires multiset(xs) == multiset(ys)
    ensures forall x :: x in xs <==> x in ys
  {
    assert forall x :: x in xs <==> x in multiset(xs);
    assert forall x :: x in ys <==> x in multiset(ys);
  }

  lemma SameActivations(c: Config, c': Config, a: Assignment)
    requires c' == c.(schedules := c'.schedules, assignments := c'.assignments)
    requires forall s :: s in c.schedules <==> s in c'.schedules
    ensures IsActivated(c, c.schedules, a) <==> IsActivated(c', c'.schedules, a)
  {
    assert forall s :: Activates(c, s, a) <==> Activates(c', s, a);
  }

  /** The mode that these assignments give the camera of one of them. */
  ghost function ModeOf(activated: set<Assignment>, camera: Id): (mode: Id)
    requires exists a :: a in activated && a.camera == camera
    requires forall a, b | a in activated && b in activated && a.camera == b.camera :: a == b
    ensures forall a | a in activated && a.camera == camera :: a.mode == mode
  {
    var a :| a in activated && a.camera == camera;
    a.mode
  }

  /** The mode map after a pass, complete or cut short. */
  ghost function ModesAfter(before: Modes, c: Config, brokenAt: Option<nat>, at: Time): (modes: Modes)
    requires ValidConfig(c)
    ensures Overridden(before, modes, Reached(c, brokenAt), at)
  {
    var reached := Reached(c, brokenAt);
    ReachedIsActivated(c, brokenAt);
    OneAssignmentPerCamera(c);
    var cameras := set a | a in reached :: a.camera;
    map camera | camera in before.Keys + cameras ::
      if camera in cameras then ModeEntry(ModeOf(reached, camera), at + Seconds(ACTIVE_MODE_TTL_SECS))
      else before[camera]
  }

  lemma OneAssignmentPerCamera(c: Config)
    requires ValidConfig(c)
    ensures forall a, b | a in c.assignments && b in c.assignments && a.camera == b.camera :: a == b
  {
    forall a, b | a in c.assignments && b in c.assignments && a.camera == b.camera ensures a == b {
      var j :| 0 <= j < |c.assignments| && c.assignments[j] == a;
      var k :| 0 <= k < |c.assignments| && c.assignments[k] == b;
    }
  }

  /******* Passes and order *******/

  lemma {:induction false} OnceInMultiset<T(!new)>(xs: seq<T>, x: T)
    requires Distinct(xs)
    ensures multiset(xs)[x] <= 1
  {
    if |xs| > 0 {
      var n := |xs| - 1;
      OnceInMultiset(xs[..n], x);
      assert xs == xs[..n] + [xs[n]];
      assert x == xs[n] ==> x !in xs[..n];
    }
  }

  lemma TwiceInMultiset<T>(xs: seq<T>, i: nat, j: nat)
    requires i < j < |xs| && xs[i] == xs[j]
    ensures multiset(xs)[xs[i]] >= 2
  {
    assert xs == xs[..j] + xs[j..];
    assert xs[i] in xs[..j] && xs[j] in xs[j..];
  }

  /** A permuted configuration is valid too: no camera gets a second assignment. */
  lemma ValidPermuted(c: Config, c': Config)
    requires c' == c.(schedules := c'.schedules, assignments := c'.assignments) && ValidConfig(c)
    requires multiset(c.assignments) == multiset(c'.assignments)
    ensures ValidConfig(c')
  {
    SameElements(c.assignments, c'.assignments);
    OneAssignmentPerCamera(c);
    forall i, j | 0 <= i < j < |c'.assignments| ensures c'.assignments[i].camera != c'.assignments[j].camera {
      var a, b := c'.assignments[i], c'.assignments[j];
      assert a in c.assignments && b in c.assignments;
      OnceInMultiset(c.assignments, a);
      if a == b {
        TwiceInMultiset(c'.assignments, i, j);
      }
    }
  }

  /**
   A complete pass computes a set: permuting schedules and assignments changes neither the count nor the activated
   assignments and, for a valid configuration, not the mode map either.
   */
  lemma PassIgnoresOrder(before: Modes, c: Config, c': Config, at: Time)
    requires c' == c.(schedules := c'.schedules, assignments := c'.assignments)
    requires multiset(c.schedules) == multiset(c'.schedules) && multiset(c.assignments) == multiset(c'.assignments)
    ensures ActivatingPairs(c, c.schedules, c.assignments) == ActivatingPairs(c', c'.schedules, c'.assignments)
    ensures Activated(c, c.schedules) == Activated(c', c'.schedules)
    ensures ValidConfig(c) ==> ValidConfig(c') && ModesAfter(before, c, None, at) == ModesAfter(before, c', None, at)
  {
    ActivationIgnoresOrder(c, c');
    if ValidConfig(c) {
      ValidPermuted(c, c');
      var modes, modes' := ModesAfter(before, c, None, at), ModesAfter(before, c', None, at);
      OverriddenIsUnique(before, modes, modes', Activated(c, c.schedules), at);
    }
  }
}
