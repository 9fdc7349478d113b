/** What holds of the axis in every run of commands, faults, resets and passing time. */
module AxisTheorems {
  import opened Reals
  import opened Motion
  import opened Kinematics
  import opened Axis

  // ---------------------------------------------------------------------------------------------
  // The invariant.

  predicate Within(m: Machine, position: real) {
    m.profile.minimum <= position <= m.profile.maximum
  }

  /** The part of the invariant a client can observe. */
  ghost predicate Consistent(m: Machine, s: State) {
    && Within(m, s.position) && Within(m, s.target)
    && s.alarm in {0, 1, 2}
    && 0.0 < s.speed <= m.profile.maxSpeed
    && -m.profile.maxSpeed <= s.velocity <= m.profile.maxSpeed
    && (s.busy <==> !s.phase.Idle?)
    && (!s.busy ==> s.velocity == 0.0 && s.position == s.target)
    && (s.busy ==> s.enabled && s.alarm == 0 && !s.done)
    && (s.phase.Moving? ==> s.homed)
    && (s.done ==> s.homed && s.enabled && s.alarm == 0)
    && (s.faults.AtLimit() ==> s.alarm != 0)
    && (s.faults.stalled ==> s.velocity == 0.0 && !s.phase.Stopping?)
  }

  ghost predicate OnCourse(m: Machine, motion: Motion, target: real) {
    && WellPlanned(motion)
    && Within(m, Origin(motion)) && End(motion) == target && Within(m, target)
    && Top(motion) <= m.profile.maxSpeed
    && (motion.Trajectory? ==> motion.a == m.profile.acceleration && motion.d == m.profile.deceleration)
    && (motion.Brake? ==> motion.deceleration == m.profile.deceleration)
  }

  /** A busy axis is somewhere on a planned motion that ends at its target. */
  ghost predicate Underway(m: Machine, s: State) {
    && OnCourse(m, s.motion, s.target)
    && (s.phase.Stopping? <==> s.motion.Brake?)
    && 0.0 <= s.elapsed
    && s.position == Sample(s.motion, s.elapsed).position
    && (!s.faults.stalled ==>
          s.elapsed < s.motion.duration && s.velocity == Sample(s.motion, s.elapsed).velocity)
  }

  ghost predicate AxisInvariant(m: Machine, s: State) {
    && Consistent(m, s)
    && (s.busy ==> Underway(m, s))
  }

  /** Everywhere on its course the axis is within its travel limits and its speed limit, so the clamp
      in `Advanced` never alters a position. */
  lemma CourseStaysWithin(m: Machine, motion: Motion, target: real, t: real)
    requires OnCourse(m, motion, target) && 0.0 <= t
    ensures Within(m, Sample(motion, t).position)
    ensures Clamp(m, Sample(motion, t).position) == Sample(motion, t).position
    ensures -m.profile.maxSpeed <= Sample(motion, t).velocity <= m.profile.maxSpeed
    ensures Sample(motion, t).finished ==> Sample(motion, t) == Reading(target, 0.0, true)
  {
    SampleIsTravel(motion, t);
    StaysOnTheWay(motion, t);
    RateIsForward(motion, t);
  }

  lemma InitialInvariant(m: Machine)
    requires m.Valid()
    ensures AxisInvariant(m, Initial(m))
  {
  }

  lemma AdvancedInvariant(m: Machine, s: State, dt: real)
    requires m.Valid() && AxisInvariant(m, s)
    ensures AxisInvariant(m, Advanced(m, s, dt))
  {
    if dt >= 0.0 && s.busy && !s.faults.stalled {
      CourseStaysWithin(m, s.motion, s.target, s.elapsed + dt);
      SampleIsTravel(s.motion, s.elapsed + dt);
    }
  }

  /** What `Planned` needs of a state it is given: everything but a motion. */
  ghost predicate ReadyToPlan(m: Machine, s: State) {
    && Within(m, s.position) && Within(m, s.target) && 0.0 < s.speed <= m.profile.maxSpeed
    && s.alarm == 0 && s.busy && s.enabled && !s.done && (s.phase.Homing? || s.phase.Moving?)
    && (s.phase.Moving? ==> s.homed) && !s.faults.AtLimit()
  }

  lemma PlanIsOnCourse(m: Machine, start: real, target: real, speed: real)
    requires m.Valid() && Within(m, start) && Within(m, target) && 0.0 < speed <= m.profile.maxSpeed
    ensures var motion := PlanTrajectory(m.sqrt, start, target, speed, m.profile.acceleration, m.profile.deceleration);
      OnCourse(m, motion, target) && motion.Trajectory? && Origin(motion) == start
  {
    PlanIsWellPlanned(m.sqrt, start, target, speed, m.profile.acceleration, m.profile.deceleration);
  }

  lemma SetOff(m: Machine, s: State, motion: Motion)
    requires m.Valid() && ReadyToPlan(m, s)
    requires motion.Trajectory? && OnCourse(m, motion, s.target) && Origin(motion) == s.position
    ensures var t := Advanced(m, s.(motion := motion, elapsed := 0.0, velocity := 0.0), 0.0);
      AxisInvariant(m, t) && t.position == s.position
  {
    StartsAtRest(motion);
    SampleIsTravel(motion, 0.0);
    CourseStaysWithin(m, motion, s.target, 0.0);
    if motion.duration == 0.0 {
      assert Travel(motion, 0.0) == Distance(motion);
    }
  }

  lemma PlannedInvariant(m: Machine, s: State)
    requires m.Valid() && ReadyToPlan(m, s)
    ensures AxisInvariant(m, Planned(m, s))
    ensures Planned(m, s).position == s.position
  {
    var motion := PlanTrajectory(m.sqrt, s.position, s.target, s.speed, m.profile.acceleration, m.profile.deceleration);
    PlanIsOnCourse(m, s.position, s.target, s.speed);
    SetOff(m, s, motion);
  }

  /** Where braking from here would stop: on the way to the target, so inside the travel limits. */
  lemma BrakeStopsOnTheWay(m: Machine, s: State)
    requires m.Valid() && Underway(m, s) && !s.faults.stalled && s.velocity != 0.0
    ensures var brake := PlanBrake(s.position, s.velocity, m.profile.deceleration);
      && WellPlanned(brake) && Origin(brake) == s.position && brake.duration > 0.0
      && Between(s.position, End(brake), s.target)
      && (s.motion.Brake? ==> End(brake) == s.target)
      && (s.motion.Trajectory? && s.motion.ta + s.motion.tc <= s.elapsed ==> End(brake) == s.target)
      && Top(brake) == Abs(s.velocity)
  {
    var brake := PlanBrake(s.position, s.velocity, m.profile.deceleration);
    BrakeIsWellPlanned(s.position, s.velocity, m.profile.deceleration);
    SampleIsTravel(s.motion, s.elapsed);
    RateIsForward(s.motion, s.elapsed);
    if s.motion.Brake? {
      BrakingAgain(s.motion, s.elapsed, 0.0);
    } else {
      RoomToBrake(s.motion, s.elapsed, brake.duration);
    }
  }

  lemma BrakeSetsOff(m: Machine, s: State, brake: Motion)
    requires WellPlanned(brake) && brake.Brake? && brake.duration > 0.0
    requires brake == PlanBrake(s.position, s.velocity, brake.deceleration)
    ensures Sample(brake, brake.duration).position == End(brake)
    ensures Sample(brake, 0.0) == Reading(s.position, s.velocity, false)
  {
    SampleIsTravel(brake, brake.duration);
    SampleIsTravel(brake, 0.0);
    StartsAtRest(brake);
  }

  lemma HaltedInvariant(m: Machine, s: State)
    requires m.Valid() && AxisInvariant(m, s) && s.busy
    ensures AxisInvariant(m, Halted(m, s))
    ensures Halted(m, s).position == s.position
  {
    if s.velocity != 0.0 {
      var brake := PlanBrake(s.position, s.velocity, m.profile.deceleration);
      BrakeStopsOnTheWay(m, s);
      CourseStaysWithin(m, s.motion, s.target, s.elapsed);
      BrakeSetsOff(m, s, brake);
    }
  }

  lemma ExecutedInvariant(m: Machine, s: State, f: Function, args: Args)
    requires m.Valid() && AxisInvariant(m, s)
    ensures AxisInvariant(m, Executed(m, s, f, args))
    ensures Executed(m, s, f, args).position == s.position
  {
    if Validate(m, s, f, args) == Ok {
      if Moves(f) {
        PlannedInvariant(m, s.(target := TargetOf(m, s, f, args), speed := SpeedOf(m, f, args),
                               phase := if f.Home? then Homing else Moving, homed := s.homed && !f.Home?,
                               busy := true, done := false));
      } else if f.Stop? && s.busy {
        HaltedInvariant(m, s);
      }
    }
  }

  lemma FaultedInvariant(m: Machine, s: State, name: FaultName, active: Value)
    requires m.Valid() && AxisInvariant(m, s)
    ensures AxisInvariant(m, Faulted(m, s, name, active))
    ensures Faulted(m, s, name, active).position == s.position
  {
    if name.Stalled? && active == Boolean(false) && s.faults.stalled && s.busy {
      PlannedInvariant(m, s.(faults := s.faults.With(name, false)));
    }
  }

  // ---------------------------------------------------------------------------------------------
  // Every run.

  datatype AxisEvent =
    | Commanded(f: Function, args: Args)
    | FaultSet(name: FaultName, active: Value)
    | Elapsed(dt: real)
    | WasReset

  function AxisStep(m: Machine, s: State, e: AxisEvent): State
    requires m.profile.Valid()
  {
    match e
    case Commanded(f, args) => Executed(m, s, f, args)
    case FaultSet(name, active) => Faulted(m, s, name, active)
    case Elapsed(dt) => Advanced(m, s, dt)
    case WasReset => Initial(m)
  }

  function AxisRun(m: Machine, s: State, events: seq<AxisEvent>): State
    requires m.profile.Valid()
    decreases |events|
  {
    if events == [] then s else AxisRun(m, AxisStep(m, s, events[0]), events[1..])
  }

  /** The time a step lets pass; a refused negative advance lets none pass. */
  function Lasting(e: AxisEvent): real {
    if e.Elapsed? then Max(0.0, e.dt) else 0.0
  }

  function Duration(events: seq<AxisEvent>): real {
    if events == [] then 0.0 else Lasting(events[0]) + Duration(events[1..])
  }

  lemma StepInvariant(m: Machine, s: State, e: AxisEvent)
    requires m.Valid() && AxisInvariant(m, s)
    ensures AxisInvariant(m, AxisStep(m, s, e))
    ensures !e.Elapsed? && !e.WasReset? ==> AxisStep(m, s, e).position == s.position
  {
    match e
    case Commanded(f, args) => ExecutedInvariant(m, s, f, args);
    case FaultSet(name, active) => FaultedInvariant(m, s, name, active);
    case Elapsed(dt) => AdvancedInvariant(m, s, dt);
    case WasReset => InitialInvariant(m);
  }

  lemma {:induction false} RunInvariant(m: Machine, s: State, events: seq<AxisEvent>)
    requires m.Valid() && AxisInvariant(m, s)
    ensures AxisInvariant(m, AxisRun(m, s, events))
    decreases |events|
  {
    if events != [] {
      StepInvariant(m, s, events[0]);
      RunInvariant(m, AxisStep(m, s, events[0]), events[1..]);
    }
  }

  /** In every run from power-up the client sees a consistent axis. */
  lemma EveryRunIsConsistent(m: Machine, events: seq<AxisEvent>)
    requires m.Valid()
    ensures Consistent(m, AxisRun(m, Initial(m), events))
  {
    InitialInvariant(m);
    RunInvariant(m, Initial(m), events);
  }

  /** The farthest the axis can drive in a given time. */
  function Reach(m: Machine, time: real): real {
    Gain(m.profile.maxSpeed, time)
  }

  lemma AdvanceMovesAtMost(m: Machine, s: State, dt: real)
    requires m.Valid() && AxisInvariant(m, s)
    ensures Abs(Advanced(m, s, dt).position - s.position) <= Reach(m, Max(0.0, dt))
  {
    SlowerIsNearer(0.0, m.profile.maxSpeed, Max(0.0, dt));
    if dt >= 0.0 && s.busy && !s.faults.stalled {
      SampleMovesAtMost(s.motion, s.elapsed, s.elapsed + dt, dt, m.profile.maxSpeed);
      CourseStaysWithin(m, s.motion, s.target, s.elapsed + dt);
    }
  }

  lemma TwoLegs(m: Machine, x: real, y: real, z: real, g: real, h: real)
    requires Abs(y - x) <= Reach(m, g) && Abs(z - y) <= Reach(m, h)
    ensures Abs(z - x) <= Reach(m, g + h)
  {
  }

  lemma StepMovesAtMost(m: Machine, s: State, e: AxisEvent)
    requires m.Valid() && AxisInvariant(m, s) && !e.WasReset?
    ensures Abs(AxisStep(m, s, e).position - s.position) <= Reach(m, Lasting(e))
  {
    SlowerIsNearer(0.0, m.profile.maxSpeed, 0.0);
    StepInvariant(m, s, e);
    if e.Elapsed? {
      AdvanceMovesAtMost(m, s, e.dt);
    }
  }

  /** No farther apart than the axis can drive in this time. */
  predicate Near(m: Machine, s: State, t: State, time: real) {
    Abs(t.position - s.position) <= Reach(m, time)
  }

  lemma NearAdds(m: Machine, a: State, b: State, c: State, g: real, h: real)
    requires Near(m, a, b, g) && Near(m, b, c, h)
    ensures Near(m, a, c, g + h)
  {
    TwoLegs(m, a.position, b.position, c.position, g, h);
  }

  lemma StepIsNear(m: Machine, s: State, e: AxisEvent)
    requires m.Valid() && AxisInvariant(m, s) && !e.WasReset?
    ensures var t := AxisStep(m, s, e); AxisInvariant(m, t) && Near(m, s, t, Lasting(e))
  {
    StepMovesAtMost(m, s, e);
    StepInvariant(m, s, e);
  }

  lemma StartIsNear(m: Machine, s: State)
    requires m.profile.Valid()
    ensures Near(m, s, s, 0.0)
  {
    SlowerIsNearer(0.0, m.profile.maxSpeed, 0.0);
  }

  /** The position never jumps: however a run without a reset is made up, the axis ends within the
      distance it could have driven at full speed in the time that passed. */
  lemma {:induction false} PositionNeverJumps(m: Machine, s: State, events: seq<AxisEvent>)
    requires m.Valid() && AxisInvariant(m, s)
    requires WasReset !in events
    ensures Near(m, s, AxisRun(m, s, events), Duration(events))
    decreases |events|
  {
    if events == [] {
      StartIsNear(m, s);
    } else {
      var next := AxisStep(m, s, events[0]);
      StepIsNear(m, s, events[0]);
      PositionNeverJumps(m, next, events[1..]);
      NearAdds(m, s, next, AxisRun(m, next, events[1..]), Lasting(events[0]), Duration(events[1..]));
    }
  }

  // ---------------------------------------------------------------------------------------------
  // Time may be cut up in any way.

  /** The state up to the stopwatch, which keeps its last value once a motion is over. */
  function Settled(s: State): State {
    if s.busy then s else s.(elapsed := 0.0)
  }

  lemma SettledAdvance(m: Machine, s: State, t: State, dt: real)
    requires Settled(s) == Settled(t)
    ensures Settled(Advanced(m, s, dt)) == Settled(Advanced(m, t, dt))
  {
  }

  lemma SettledExecute(m: Machine, s: State, t: State, f: Function, args: Args)
    requires m.profile.Valid() && Settled(s) == Settled(t)
    ensures Validate(m, s, f, args) == Validate(m, t, f, args)
    ensures Settled(Executed(m, s, f, args)) == Settled(Executed(m, t, f, args))
  {
  }

  lemma SettledFault(m: Machine, s: State, t: State, name: FaultName, active: Value)
    requires m.profile.Valid() && Settled(s) == Settled(t)
    ensures Settled(Faulted(m, s, name, active)) == Settled(Faulted(m, t, name, active))
  {
  }

  lemma AdvanceSplits(m: Machine, s: State, x: real, y: real)
    requires x >= 0.0 && y >= 0.0
    ensures Settled(Advanced(m, Advanced(m, s, x), y)) == Settled(Advanced(m, s, x + y))
  {
    if s.busy && !s.faults.stalled && !s.motion.Still? {
      assert s.elapsed + x + y == s.elapsed + (x + y);
      if Sample(s.motion, s.elapsed + x).finished {
        SampleStays(s.motion, s.elapsed + x, s.elapsed + x + y);
      }
    }
  }

  /** An axis that is another one advanced stays so when both advance further. */
  lemma AdvanceCatchesUp(m: Machine, s: State, t: State, x: real, y: real)
    requires x >= 0.0 && y >= 0.0 && Settled(s) == Settled(Advanced(m, t, x))
    ensures Settled(Advanced(m, s, y)) == Settled(Advanced(m, t, x + y))
  {
    SettledAdvance(m, s, Advanced(m, t, x), y);
    AdvanceSplits(m, t, x, y);
  }

  lemma AdvanceByNothing(m: Machine, s: State)
    requires m.Valid() && AxisInvariant(m, s)
    ensures Advanced(m, s, 0.0) == s
  {
    if s.busy && !s.faults.stalled {
      CourseStaysWithin(m, s.motion, s.target, s.elapsed);
      SampleIsTravel(s.motion, s.elapsed);
    }
  }

  // ---------------------------------------------------------------------------------------------
  // Moves and stops.

  /** A velocity in the direction of a distance, or none. */
  predicate Towards(distance: real, velocity: real) {
    (distance >= 0.0 ==> velocity >= 0.0) && (distance <= 0.0 ==> velocity <= 0.0)
  }

  /** `dt` seconds into a move that takes at least `least` and at most `most` seconds. */
  predicate OnTheMove(t: State, start: real, goal: real, speed: real, phase: Phase, dt: real, least: real, most: real) {
    && t.target == goal && Between(start, t.position, goal)
    && Towards(goal - start, t.velocity) && Abs(t.velocity) <= speed
    && (t.busy ==> t.phase == phase && !t.done)
    && (dt < least ==> t.busy)
    && (dt >= most ==> t.done && !t.busy && t.homed && t.position == goal && t.velocity == 0.0)
  }

  lemma DrivesTowards(motion: Motion, t: real)
    requires motion.Trajectory? && WellPlanned(motion) && 0.0 <= t
    ensures Towards(End(motion) - Origin(motion), Sample(motion, t).velocity)
    ensures Abs(Sample(motion, t).velocity) <= Top(motion)
  {
    SampleIsTravel(motion, t);
    RateIsForward(motion, t);
    StaysOnTheWay(motion, t);
    if Distance(motion) == 0.0 {
      NoDistanceNoSpeed(motion);
    }
  }

  lemma Drive(m: Machine, ready: State, motion: Motion, dt: real)
    requires m.Valid() && ReadyToPlan(m, ready) && !ready.faults.stalled && dt >= 0.0
    requires motion.Trajectory? && OnCourse(m, motion, ready.target) && Origin(motion) == ready.position
    requires Top(motion) <= ready.speed
    ensures var off := ready.(motion := motion, elapsed := 0.0, velocity := 0.0);
      OnTheMove(Advanced(m, Advanced(m, off, 0.0), dt), ready.position, ready.target, ready.speed, ready.phase, dt,
                motion.duration, motion.duration)
  {
    var off := ready.(motion := motion, elapsed := 0.0, velocity := 0.0);
    AdvanceSplits(m, off, 0.0, dt);
    CourseStaysWithin(m, motion, ready.target, dt);
    SampleIsTravel(motion, dt);
    StaysOnTheWay(motion, dt);
    DrivesTowards(motion, dt);
  }

  lemma Departure(m: Machine, ready: State, dt: real)
    requires m.Valid() && ReadyToPlan(m, ready) && !ready.faults.stalled && dt >= 0.0
    ensures var motion := PlanTrajectory(m.sqrt, ready.position, ready.target, ready.speed,
                                         m.profile.acceleration, m.profile.deceleration);
      OnTheMove(Advanced(m, Planned(m, ready), dt), ready.position, ready.target, ready.speed, ready.phase, dt,
                motion.duration, motion.duration)
  {
    var motion := PlanTrajectory(m.sqrt, ready.position, ready.target, ready.speed,
                                 m.profile.acceleration, m.profile.deceleration);
    PlanIsOnCourse(m, ready.position, ready.target, ready.speed);
    PlanIsWellPlanned(m.sqrt, ready.position, ready.target, ready.speed, m.profile.acceleration, m.profile.deceleration);
    Drive(m, ready, motion, dt);
  }

  /** An accepted move on an axis that is not stalled runs for at least the time at full speed and is
      done, exactly at its target, no later than what two full ramps add to that. */
  lemma AcceptedMoveArrives(m: Machine, s: State, f: Function, args: Args, dt: real)
    requires m.Valid() && AxisInvariant(m, s) && !s.faults.stalled
    requires Moves(f) && Validate(m, s, f, args) == Ok && dt >= 0.0
    ensures var goal := TargetOf(m, s, f, args);
      var speed := SpeedOf(m, f, args);
      var least := TimeAtSpeed(Abs(goal - s.position), speed);
      var most := least + RampAllowance(speed, m.profile.acceleration, m.profile.deceleration);
      OnTheMove(Advanced(m, Executed(m, s, f, args), dt), s.position, goal, speed, if f.Home? then Homing else Moving,
                dt, least, most)
  {
    var goal, speed := TargetOf(m, s, f, args), SpeedOf(m, f, args);
    var ready := s.(target := goal, speed := speed, phase := if f.Home? then Homing else Moving,
                    homed := s.homed && !f.Home?, busy := true, done := false);
    assert Executed(m, s, f, args) == Planned(m, ready);
    PlanIsOnCourse(m, s.position, goal, speed);
    DurationBounds(m.sqrt, s.position, goal, speed, m.profile.acceleration, m.profile.deceleration);
    Departure(m, ready, dt);
  }

  /** Stop on a busy axis always succeeds and brakes to a point between here and the old target; the
      axis comes to rest exactly there, within the braking time, and is not `done`. */
  lemma StopBrakesInsideTheMove(m: Machine, s: State, args: Args, dt: real)
    requires m.Valid() && AxisInvariant(m, s) && s.busy
    requires WellFormedArgs(m, Function.Stop, args) && dt >= 0.0
    ensures Validate(m, s, Function.Stop, args) == Ok
    ensures var t := Executed(m, s, Function.Stop, args);
      var u := Advanced(m, t, dt);
      && t.position == s.position && Between(s.position, t.target, s.target) && Within(m, t.target)
      && u.target == t.target && Between(s.position, u.position, t.target) && !u.done
      && (dt >= Abs(s.velocity) / m.profile.deceleration ==>
            !u.busy && u.position == t.target && u.velocity == 0.0)
  {
    ExecutedInvariant(m, s, Function.Stop, args);
    if s.velocity != 0.0 {
      var brake := PlanBrake(s.position, s.velocity, m.profile.deceleration);
      BrakeStopsOnTheWay(m, s);
      BrakeSetsOff(m, s, brake);
      CourseStaysWithin(m, brake, End(brake), dt);
      SampleIsTravel(brake, dt);
      StaysOnTheWay(brake, dt);
    }
  }

  /** Repeating Stop while braking changes nothing that anyone will ever see. */
  lemma StopIsIdempotent(m: Machine, s: State, args: Args, dt: real)
    requires m.Valid() && AxisInvariant(m, s) && s.phase.Stopping?
    requires WellFormedArgs(m, Function.Stop, args) && dt >= 0.0
    ensures SnapshotOf(Executed(m, s, Function.Stop, args)) == SnapshotOf(s)
    ensures SnapshotOf(Advanced(m, Executed(m, s, Function.Stop, args), dt)) == SnapshotOf(Advanced(m, s, dt))
  {
    ExecutedInvariant(m, s, Function.Stop, args);
    SampleIsTravel(s.motion, s.elapsed);
    Braking(s.motion, s.elapsed);
    GainGrows(s.motion.deceleration, 0.0, s.motion.duration - s.elapsed);
    BrakeRest(s.motion.deceleration, 0.0, 0.0);
    var brake := PlanBrake(s.position, s.velocity, m.profile.deceleration);
    BrakeStopsOnTheWay(m, s);
    BrakeSetsOff(m, s, brake);
    BrakingAgain(s.motion, s.elapsed, dt);
  }

  // ---------------------------------------------------------------------------------------------
  // The front panel: faults, alarm and enabling, whatever the axis is doing.

  datatype Panel = Panel(faults: Faults, alarm: int, enabled: bool)

  function PanelOf(s: State): Panel {
    Panel(s.faults, s.alarm, s.enabled)
  }

  const PANEL_AT_RESET := Panel(Faults(false, false, false), 0, false)

  /** A limit that comes on raises its own alarm, and the alarm outlives it until it is cleared. */
  function PanelStep(m: Machine, p: Panel, e: AxisEvent): Panel {
    match e
    case WasReset => PANEL_AT_RESET
    case Elapsed(_) => p
    case FaultSet(name, active) =>
      if !ValidFault(name, active) || p.faults.Active(name) == active.b then p
      else
        var raised := if !active.b || name.Stalled? then p.alarm else if name.PositiveLimit? then 1 else 2;
        Panel(p.faults.With(name, active.b), raised, p.enabled)
    case Commanded(f, args) =>
      if !WellFormedArgs(m, f, args) then p
      else if f.Disable? then p.(enabled := false)
      else if p.faults.AtLimit() then p
      else if f.ClearFault? then p.(alarm := 0)
      else if f.Enable? && p.alarm == 0 then p.(enabled := true)
      else p
  }

  function PanelRun(m: Machine, p: Panel, events: seq<AxisEvent>): Panel
    decreases |events|
  {
    if events == [] then p else PanelRun(m, PanelStep(m, p, events[0]), events[1..])
  }

  lemma PanelFollowsCommand(m: Machine, s: State, f: Function, args: Args)
    requires m.profile.Valid()
    ensures PanelOf(Executed(m, s, f, args)) == PanelStep(m, PanelOf(s), Commanded(f, args))
  {
  }

  lemma PanelFollowsFault(m: Machine, s: State, name: FaultName, active: Value)
    requires m.profile.Valid()
    ensures PanelOf(Faulted(m, s, name, active)) == PanelStep(m, PanelOf(s), FaultSet(name, active))
  {
  }

  lemma PanelFollows(m: Machine, s: State, e: AxisEvent)
    requires m.profile.Valid()
    ensures PanelOf(AxisStep(m, s, e)) == PanelStep(m, PanelOf(s), e)
  {
    match e
    case Commanded(f, args) => PanelFollowsCommand(m, s, f, args);
    case FaultSet(name, active) => PanelFollowsFault(m, s, name, active);
    case _ =>
  }

  /** Faults, alarm and enabling are a machine of their own: no motion and no time has a part in them. */
  lemma {:induction false} PanelIsIndependent(m: Machine, s: State, events: seq<AxisEvent>)
    requires m.profile.Valid()
    ensures PanelOf(AxisRun(m, s, events)) == PanelRun(m, PanelOf(s), events)
    decreases |events|
  {
    if events != [] {
      PanelFollows(m, s, events[0]);
      PanelIsIndependent(m, AxisStep(m, s, events[0]), events[1..]);
    }
  }

  // ---------------------------------------------------------------------------------------------
  // Limits and recovery.

  lemma LimitStays(m: Machine, s: State, e: AxisEvent)
    requires m.Valid() && AxisInvariant(m, s) && s.faults.AtLimit() && (e.Commanded? || e.Elapsed?)
    ensures var t := AxisStep(m, s, e);
      AxisInvariant(m, t) && t.faults.AtLimit() && t.position == s.position
  {
    StepInvariant(m, s, e);
  }

  /** While a limit is active no command and no time moves the axis. */
  lemma {:induction false} LimitHolds(m: Machine, s: State, events: seq<AxisEvent>)
    requires m.Valid() && AxisInvariant(m, s) && s.faults.AtLimit()
    requires forall e | e in events :: e.Commanded? || e.Elapsed?
    ensures var t := AxisRun(m, s, events);
      t.position == s.position && t.velocity == 0.0 && !t.busy && t.alarm != 0
    decreases |events|
  {
    if events != [] {
      LimitStays(m, s, events[0]);
      LimitHolds(m, AxisStep(m, s, events[0]), events[1..]);
    }
  }

  lemma SwitchesOff(m: Machine, s: State)
    requires m.Valid() && AxisInvariant(m, s)
    ensures Validate(m, s, Disable, NO_ARGS) == Ok
    ensures var off := Executed(m, s, Disable, NO_ARGS);
      AxisInvariant(m, off) && !off.busy && off.position == s.position && off.faults == s.faults
  {
    ExecutedInvariant(m, s, Disable, NO_ARGS);
  }

  lemma SwitchesOn(m: Machine, s: State)
    requires m.Valid() && AxisInvariant(m, s) && !s.busy && !s.faults.AtLimit()
    ensures Validate(m, s, ClearFault, NO_ARGS) == Ok
    ensures var clear := Executed(m, s, ClearFault, NO_ARGS);
      var on := Executed(m, clear, Enable, NO_ARGS);
      && Validate(m, clear, Enable, NO_ARGS) == Ok
      && AxisInvariant(m, on) && on.enabled && on.alarm == 0 && !on.busy
      && on.position == s.position && on.faults == s.faults
  {
    ExecutedInvariant(m, s, ClearFault, NO_ARGS);
    ExecutedInvariant(m, Executed(m, s, ClearFault, NO_ARGS), Enable, NO_ARGS);
  }

  lemma TakesTime(distance: real, speed: real, a: real, d: real)
    requires distance >= 0.0 && speed > 0.0 && a > 0.0 && d > 0.0
    ensures 0.0 <= TimeAtSpeed(distance, speed) && 0.0 <= RampAllowance(speed, a, d)
  {
    assert 1.0 / a > 0.0 && 1.0 / d > 0.0;
  }

  lemma HomesFromRest(m: Machine, s: State, dt: real)
    requires m.Valid() && AxisInvariant(m, s) && s.enabled && s.alarm == 0 && !s.busy && !s.faults.stalled
    requires dt >= TimeAtSpeed(Abs(m.profile.home - s.position), m.profile.maxSpeed)
                   + RampAllowance(m.profile.maxSpeed, m.profile.acceleration, m.profile.deceleration)
    ensures Validate(m, s, Home, NO_ARGS) == Ok
    ensures var t := Advanced(m, Executed(m, s, Home, NO_ARGS), dt);
      t.homed && t.done && !t.busy && t.position == m.profile.home && t.velocity == 0.0
  {
    TakesTime(Abs(m.profile.home - s.position), m.profile.maxSpeed, m.profile.acceleration, m.profile.deceleration);
    AcceptedMoveArrives(m, s, Home, NO_ARGS, dt);
  }

  /** From every reachable state whose faults are gone, Disable, ClearFault, Enable and Home all succeed,
      and the axis is homed, done and at rest at its home position in bounded time. */
  lemma RecoveryAlwaysWorks(m: Machine, s: State, dt: real)
    requires m.Valid() && AxisInvariant(m, s) && !s.faults.AtLimit() && !s.faults.stalled
    requires dt >= TimeAtSpeed(Abs(m.profile.home - s.position), m.profile.maxSpeed)
                   + RampAllowance(m.profile.maxSpeed, m.profile.acceleration, m.profile.deceleration)
    ensures var off := Executed(m, s, Disable, NO_ARGS);
      var clear := Executed(m, off, ClearFault, NO_ARGS);
      var on := Executed(m, clear, Enable, NO_ARGS);
      var t := Advanced(m, Executed(m, on, Home, NO_ARGS), dt);
      && Validate(m, s, Disable, NO_ARGS) == Ok && Validate(m, off, ClearFault, NO_ARGS) == Ok
      && Validate(m, clear, Enable, NO_ARGS) == Ok && Validate(m, on, Home, NO_ARGS) == Ok
      && t.homed && t.done && !t.busy && t.position == m.profile.home && t.velocity == 0.0
  {
    var off := Executed(m, s, Disable, NO_ARGS);
    var clear := Executed(m, off, ClearFault, NO_ARGS);
    var on := Executed(m, clear, Enable, NO_ARGS);
    SwitchesOff(m, s);
    SwitchesOn(m, off);
    HomesFromRest(m, on, dt);
  }

  /** With the constants of the device, 2.5 seconds are enough from anywhere. */
  lemma RecoveryIsQuick(m: Machine, s: State, dt: real)
    requires m.profile == REFERENCE && SquareRoot(m.sqrt) && AxisInvariant(m, s) && dt >= 2.5
    requires !s.faults.AtLimit() && !s.faults.stalled
    ensures var off := Executed(m, s, Disable, NO_ARGS);
      var on := Executed(m, Executed(m, off, ClearFault, NO_ARGS), Enable, NO_ARGS);
      var t := Advanced(m, Executed(m, on, Home, NO_ARGS), dt);
      t.homed && t.done && !t.busy && t.position == 0.0 && t.velocity == 0.0
  {
    assert TimeAtSpeed(Abs(0.0 - s.position), 90.0) <= 2.0;
    assert RampAllowance(90.0, 180.0, 180.0) == 0.5;
    RecoveryAlwaysWorks(m, s, dt);
  }
}
