/** What each command of the axis answers and where each move ends, in the caller's own terms. */
module AxisAnswers {
  import opened Reals
  import opened Motion
  import opened Kinematics
  import opened Axis
  import opened AxisTheorems

  // ---------------------------------------------------------------------------------------------
  // Arguments.

  /** Nothing but the keys a function takes, and the only axis there is. */
  predicate OnlyThese(entries: map<Key, Value>, keys: set<Key>) {
    entries.Keys <= keys && (AxisKey in entries ==> entries[AxisKey] == Int(1))
  }

  /** Integers and floats are numbers; booleans, NaNs, infinities and integers too large are not. */
  predicate IsNumber(value: Value) {
    value.Int? || value.Float?
  }

  function NumberIn(value: Value): real
    requires IsNumber(value)
  {
    match value
    case Int(i) => i as real
    case Float(x) => x
  }

  /** A speed left out means full speed; one that is given is positive and no more than that. */
  predicate GoodSpeed(m: Machine, entries: map<Key, Value>) {
    SpeedKey in entries ==>
      IsNumber(entries[SpeedKey]) && 0.0 < NumberIn(entries[SpeedKey]) <= m.profile.maxSpeed
  }

  predicate GoodAngle(entries: map<Key, Value>) {
    AngleKey in entries && IsNumber(entries[AngleKey])
  }

  predicate GoodMove(m: Machine, entries: map<Key, Value>) {
    OnlyThese(entries, {AxisKey, AngleKey, SpeedKey}) && GoodSpeed(m, entries) && GoodAngle(entries)
  }

  predicate GoodHome(m: Machine, entries: map<Key, Value>) {
    OnlyThese(entries, {AxisKey, SpeedKey}) && GoodSpeed(m, entries)
  }

  lemma ArgumentsAreChecked(m: Machine, s: State, entries: map<Key, Value>)
    ensures Validate(m, s, MoveAbsolute, Dict(entries)) == InvalidArgument <==> !GoodMove(m, entries)
    ensures Validate(m, s, MoveRelative, Dict(entries)) == InvalidArgument <==> !GoodMove(m, entries)
    ensures Validate(m, s, Home, Dict(entries)) == InvalidArgument <==> !GoodHome(m, entries)
    ensures forall f | !Moves(f) && !f.OtherFunction? ::
      Validate(m, s, f, Dict(entries)) == InvalidArgument <==> !OnlyThese(entries, {AxisKey})
  {
  }

  // ---------------------------------------------------------------------------------------------
  // Answers, in the order in which they take precedence.

  /** What a well formed move answers: an alarm first, then what the axis is not ready for, then where
      the move would end. */
  function MoveAnswer(m: Machine, s: State, homing: bool, goal: real): Result {
    if s.alarm != 0 then Fault
    else if !s.enabled then NotEnabled
    else if s.busy then Busy
    else if !homing && !s.homed then NotHomed
    else if goal < m.profile.minimum || m.profile.maximum < goal then Limit
    else Ok
  }

  lemma MovesAnswer(m: Machine, s: State, entries: map<Key, Value>)
    ensures GoodMove(m, entries) ==>
      Validate(m, s, MoveAbsolute, Dict(entries)) == MoveAnswer(m, s, false, NumberIn(entries[AngleKey]))
    ensures GoodMove(m, entries) ==>
      Validate(m, s, MoveRelative, Dict(entries)) == MoveAnswer(m, s, false, s.position + NumberIn(entries[AngleKey]))
    ensures GoodHome(m, entries) ==> Validate(m, s, Home, Dict(entries)) == MoveAnswer(m, s, true, m.profile.home)
  {
  }

  /** The other commands answer by faults and alarm alone; switching off, stopping and asking always
      succeed. */
  lemma OthersAnswer(m: Machine, s: State, f: Function, entries: map<Key, Value>)
    requires !Moves(f) && !f.OtherFunction? && OnlyThese(entries, {AxisKey})
    ensures var answer := Validate(m, s, f, Dict(entries));
      && (f.Disable? || f.Stop? || f.GetPosition? || f.GetState? ==> answer == Ok)
      && (f.ClearFault? ==> answer == if s.faults.positiveLimit || s.faults.negativeLimit then Limit else Ok)
      && (f.Enable? ==>
            answer == if s.faults.positiveLimit || s.faults.negativeLimit then Limit
                      else if s.alarm != 0 then Fault else Ok)
  {
  }

  /** Whatever else is wrong, an unknown function is that, and arguments that are not a dictionary are
      refused next. */
  lemma StrangeRequestsAnswer(m: Machine, s: State, f: Function, args: Args)
    ensures Validate(m, s, f, args) == UnknownFunction <==> f.OtherFunction?
    ensures !f.OtherFunction? && args.NotADict? ==> Validate(m, s, f, args) == InvalidArgument
  {
  }

  /** No two answers share a code, and only `Ok` is 0. */
  lemma CodesAreDistinct(a: Result, b: Result)
    ensures a.Code() == b.Code() <==> a == b
    ensures 0 <= a.Code() <= 7 && (a.Code() == 0 <==> a == Ok)
  {
  }

  /** So while a move is under way every other is answered `Busy` and changes nothing. */
  lemma OneMoveAtATime(m: Machine, s: State, f: Function, entries: map<Key, Value>)
    requires m.Valid() && AxisInvariant(m, s) && s.busy
    requires if f.Home? then GoodHome(m, entries) else (f.MoveAbsolute? || f.MoveRelative?) && GoodMove(m, entries)
    ensures Validate(m, s, f, Dict(entries)) == Busy && Executed(m, s, f, Dict(entries)) == s
  {
    MovesAnswer(m, s, entries);
  }

  /** A refusal changes nothing. */
  lemma RefusalsChangeNothing(m: Machine, s: State, f: Function, args: Args)
    requires m.profile.Valid() && Validate(m, s, f, args) != Ok
    ensures Executed(m, s, f, args) == s
  {
  }

  // ---------------------------------------------------------------------------------------------
  // Where moves end.

  /** The speed asked for, or full speed. */
  function Requested(m: Machine, entries: map<Key, Value>): real
    requires GoodSpeed(m, entries)
  {
    if SpeedKey in entries then NumberIn(entries[SpeedKey]) else m.profile.maxSpeed
  }

  /** A move from `start` to `goal` that has been under way for `dt`: on its way at no more than the
      requested speed and still busy before the time that full speed takes, done and at rest exactly at
      its goal once two ramps have been added to that. */
  predicate Carried(m: Machine, t: State, start: real, goal: real, speed: real, phase: Phase, dt: real)
    requires m.profile.Valid() && speed > 0.0
  {
    var least := TimeAtSpeed(Abs(goal - start), speed);
    var most := least + RampAllowance(speed, m.profile.acceleration, m.profile.deceleration);
    OnTheMove(t, start, goal, speed, phase, dt, least, most)
  }

  /** An absolute move ends at its angle, and is refused exactly when that is outside the travel. */
  lemma MoveAbsoluteArrives(m: Machine, s: State, entries: map<Key, Value>, dt: real)
    requires m.Valid() && AxisInvariant(m, s) && GoodMove(m, entries) && dt >= 0.0
    requires s.enabled && s.homed && !s.busy && s.alarm == 0 && !s.faults.stalled
    ensures var angle := NumberIn(entries[AngleKey]);
      var t := Executed(m, s, MoveAbsolute, Dict(entries));
      && (Validate(m, s, MoveAbsolute, Dict(entries)) == Limit <==> !Within(m, angle))
      && (if Within(m, angle)
          then Carried(m, Advanced(m, t, dt), s.position, angle, Requested(m, entries), Moving, dt)
          else t == s)
  {
    MovesAnswer(m, s, entries);
    if Within(m, NumberIn(entries[AngleKey])) {
      AcceptedMoveArrives(m, s, MoveAbsolute, Dict(entries), dt);
    }
  }

  /** A relative move ends at its angle from where it began. */
  lemma MoveRelativeArrives(m: Machine, s: State, entries: map<Key, Value>, dt: real)
    requires m.Valid() && AxisInvariant(m, s) && GoodMove(m, entries) && dt >= 0.0
    requires s.enabled && s.homed && !s.busy && s.alarm == 0 && !s.faults.stalled
    ensures var goal := s.position + NumberIn(entries[AngleKey]);
      var t := Executed(m, s, MoveRelative, Dict(entries));
      && (Validate(m, s, MoveRelative, Dict(entries)) == Limit <==> !Within(m, goal))
      && (if Within(m, goal)
          then Carried(m, Advanced(m, t, dt), s.position, goal, Requested(m, entries), Moving, dt)
          else t == s)
  {
    MovesAnswer(m, s, entries);
    if Within(m, s.position + NumberIn(entries[AngleKey])) {
      AcceptedMoveArrives(m, s, MoveRelative, Dict(entries), dt);
    }
  }

  /** Homing ends at the home position, and the axis is not homed before it does. */
  lemma HomeArrives(m: Machine, s: State, entries: map<Key, Value>, dt: real)
    requires m.Valid() && AxisInvariant(m, s) && GoodHome(m, entries) && dt >= 0.0
    requires s.enabled && !s.busy && s.alarm == 0 && !s.faults.stalled
    ensures var u := Advanced(m, Executed(m, s, Home, Dict(entries)), dt);
      && Validate(m, s, Home, Dict(entries)) == Ok
      && Carried(m, u, s.position, m.profile.home, Requested(m, entries), Homing, dt)
      && (u.homed <==> !u.busy)
  {
    MovesAnswer(m, s, entries);
    AcceptedMoveArrives(m, s, Home, Dict(entries), dt);
  }

  // ---------------------------------------------------------------------------------------------
  // What faults and switches do to a move.

  /** At rest here, with nothing under way and nothing achieved. */
  predicate StoppedHere(s: State, t: State) {
    && t.position == s.position && t.target == s.position && t.velocity == 0.0
    && !t.busy && !t.done && t.phase == Idle
  }

  /** A stall holds a move where it is, for as long as it lasts. */
  lemma StallHolds(m: Machine, s: State, dt: real)
    requires m.Valid() && AxisInvariant(m, s) && s.busy && !s.faults.stalled && !s.phase.Stopping?
    ensures var t := Faulted(m, s, Stalled, Boolean(true));
      && t.faults.stalled && t.busy && t.velocity == 0.0 && t.position == s.position
      && t.target == s.target && t.phase == s.phase && t.alarm == s.alarm && t.homed == s.homed
      && Advanced(m, t, dt) == t
  {
  }

  /** Once it clears, the move is taken up from there and still ends at its target, at its speed. */
  lemma StallClears(m: Machine, s: State, dt: real)
    requires m.Valid() && AxisInvariant(m, s) && s.busy && s.faults.stalled && dt >= 0.0
    ensures var t := Faulted(m, s, Stalled, Boolean(false));
      && !t.faults.stalled
      && Carried(m, Advanced(m, t, dt), s.position, s.target, s.speed, s.phase, dt)
  {
    var ready := s.(faults := s.faults.(stalled := false));
    PlanIsOnCourse(m, s.position, s.target, s.speed);
    DurationBounds(m.sqrt, s.position, s.target, s.speed, m.profile.acceleration, m.profile.deceleration);
    Departure(m, ready, dt);
    assert Faulted(m, s, Stalled, Boolean(false)) == Planned(m, ready);
  }

  /** A stall while stopping, and a limit at any time, end the move where it is. */
  lemma FaultsEndMoves(m: Machine, s: State, name: FaultName)
    requires m.Valid() && AxisInvariant(m, s) && !s.faults.Active(name) && !name.OtherFault?
    requires name.Stalled? ==> s.phase.Stopping?
    ensures var t := Faulted(m, s, name, Boolean(true));
      && StoppedHere(s, t) && t.enabled == s.enabled && t.homed == s.homed
      && (name.Stalled? ==> t.faults.stalled && t.alarm == s.alarm)
      && (name.PositiveLimit? ==> t.faults.positiveLimit && t.alarm == 1)
      && (name.NegativeLimit? ==> t.faults.negativeLimit && t.alarm == 2)
  {
  }

  /** Each fault is set and cleared by its own name. */
  lemma FaultsAreTheirOwn(m: Machine, s: State, name: FaultName, active: bool)
    requires m.profile.Valid() && !name.OtherFault?
    ensures var t := Faulted(m, s, name, Boolean(active)).faults;
      && t.stalled == (if name.Stalled? then active else s.faults.stalled)
      && t.positiveLimit == (if name.PositiveLimit? then active else s.faults.positiveLimit)
      && t.negativeLimit == (if name.NegativeLimit? then active else s.faults.negativeLimit)
  {
  }

  /** A fault that clears, other than a stall in a move, leaves the move and the alarm alone. */
  lemma ClearedFaultsLeaveTheRest(m: Machine, s: State, name: FaultName)
    requires m.profile.Valid() && !name.OtherFault? && (name.Stalled? ==> !s.busy)
    ensures Faulted(m, s, name, Boolean(false)) == s.(faults := Faulted(m, s, name, Boolean(false)).faults)
  {
  }

  /** Switching off ends any move and forgets the home position. */
  lemma DisableEndsMoves(m: Machine, s: State, entries: map<Key, Value>)
    requires m.profile.Valid() && OnlyThese(entries, {AxisKey})
    ensures var t := Executed(m, s, Disable, Dict(entries));
      StoppedHere(s, t) && !t.enabled && !t.homed && t.alarm == s.alarm && t.faults == s.faults
  {
  }

  /** Enabling, clearing and asking touch no move. */
  lemma SwitchesLeaveMoves(m: Machine, s: State, f: Function, args: Args)
    requires m.profile.Valid() && (f.Enable? || f.ClearFault? || f.GetPosition? || f.GetState?)
    ensures var t := Executed(m, s, f, args);
      t == s.(enabled := t.enabled, alarm := t.alarm)
  {
  }

  /** Stop with nothing to stop changes nothing; on a move held at rest it ends the move there. */
  lemma StopAtRest(m: Machine, s: State, entries: map<Key, Value>)
    requires m.profile.Valid() && OnlyThese(entries, {AxisKey}) && s.velocity == 0.0
    ensures var t := Executed(m, s, Function.Stop, Dict(entries));
      if s.busy then StoppedHere(s, t) && t.enabled == s.enabled && t.homed == s.homed && t.faults == s.faults else t == s
  {
  }

  // ---------------------------------------------------------------------------------------------
  // The reference device.

  lemma TopSpeedIsReached(sqrt: real -> real)
    requires SquareRoot(sqrt)
    ensures sqrt(16200.0) >= 90.0
  {
    assert 90.0 * 90.0 == 8100.0;
    if sqrt(16200.0) < 90.0 {
      Squares(sqrt(16200.0), 90.0);
    }
  }

  /** With the reference constants a quarter turn from rest at zero takes a second and a half: a third of it
      each to reach 90 degrees a second, to cruise and to brake.  Travel is half a turn either way. */
  lemma QuarterTurn(sqrt: real -> real)
    requires SquareRoot(sqrt)
    ensures REFERENCE.Valid() && REFERENCE.minimum == -180.0 && REFERENCE.maximum == 180.0 && REFERENCE.initial == 0.0
    ensures PlanTrajectory(sqrt, REFERENCE.home, 90.0, REFERENCE.maxSpeed, REFERENCE.acceleration, REFERENCE.deceleration)
            == Trajectory(0.0, 90.0, 1.0, 180.0, 180.0, 90.0, 0.5, 0.5, 0.5, 1.5)
  {
    TopSpeedIsReached(sqrt);
    assert 90.0 * 2.0 / (1.0 / 180.0 + 1.0 / 180.0) == 16200.0;
    assert Peak(sqrt, 90.0, 90.0, 180.0, 180.0) == 90.0;
  }
}
