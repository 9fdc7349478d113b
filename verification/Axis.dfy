/** The rotary axis: what each command, fault and passage of time does to its state.

    The functions give the next state as a value; the class at the end keeps the same state in
    fields and updates them in place. */
module Axis {
  import opened Reals
  import opened Motion

  /** The device constants together with the library square root. */
  datatype Machine = Machine(profile: Parameters, sqrt: real -> real)
  {
    ghost predicate Valid() {
      profile.Valid() && SquareRoot(sqrt)
    }
  }

  datatype Function =
    | Enable | Disable | Home | MoveAbsolute | MoveRelative | Stop | ClearFault | GetPosition | GetState
    | OtherFunction(name: string)

  datatype Result = Ok | InvalidArgument | NotEnabled | NotHomed | Busy | Limit | Fault | UnknownFunction
  {
    function Code(): int {
      match this
      case Ok => 0
      case InvalidArgument => 1
      case NotEnabled => 2
      case NotHomed => 3
      case Busy => 4
      case Limit => 5
      case Fault => 6
      case UnknownFunction => 7
    }
  }

  /** A dynamically typed argument.  `NonFinite` stands for a NaN, an infinity or an integer too large
      for a float; `Int` for the others. */
  datatype Value = Int(i: int) | Float(x: real) | NonFinite | Boolean(b: bool) | OtherValue
  {
    predicate Finite() {
      Int? || Float?
    }

    function Number(): real
      requires Finite()
    {
      if Int? then i as real else x
    }
  }

  datatype Key = AxisKey | AngleKey | SpeedKey | OtherKey(name: string)

  datatype Args = Dict(entries: map<Key, Value>) | NotADict
  {
    predicate Has(key: Key) {
      Dict? && key in entries
    }
  }

  const NO_ARGS := Dict(map[])

  datatype FaultName = Stalled | PositiveLimit | NegativeLimit | OtherFault(name: string)

  datatype Faults = Faults(stalled: bool, positiveLimit: bool, negativeLimit: bool)
  {
    predicate Active(name: FaultName) {
      match name
      case Stalled => stalled
      case PositiveLimit => positiveLimit
      case NegativeLimit => negativeLimit
      case OtherFault(_) => false
    }

    function With(name: FaultName, active: bool): Faults {
      match name
      case Stalled => this.(stalled := active)
      case PositiveLimit => this.(positiveLimit := active)
      case NegativeLimit => this.(negativeLimit := active)
      case OtherFault(_) => this
    }

    predicate AtLimit() {
      positiveLimit || negativeLimit
    }
  }

  datatype Phase = Idle | Homing | Moving | Stopping

  datatype State = State(
    position: real, target: real, velocity: real,
    enabled: bool, homed: bool, busy: bool, done: bool, alarm: int,
    phase: Phase, faults: Faults,
    motion: Motion, elapsed: real, speed: real)

  /** What callers and the wire see of the state. */
  datatype Snapshot = Snapshot(
    position: real, velocity: real, target: real,
    enabled: bool, homed: bool, busy: bool, done: bool, alarm: int, phase: Phase, faults: Faults)

  function SnapshotOf(s: State): Snapshot {
    Snapshot(s.position, s.velocity, s.target, s.enabled, s.homed, s.busy, s.done, s.alarm, s.phase, s.faults)
  }

  function Initial(m: Machine): State {
    State(m.profile.initial, m.profile.initial, 0.0, false, false, false, false, 0,
          Idle, Faults(false, false, false), Still, 0.0, m.profile.maxSpeed)
  }

  // ---------------------------------------------------------------------------------------------
  // Validation.

  predicate Moves(f: Function) {
    f.Home? || f.MoveAbsolute? || f.MoveRelative?
  }

  predicate Allowed(f: Function, key: Key) {
    match key
    case AxisKey => true
    case SpeedKey => Moves(f)
    case AngleKey => f.MoveAbsolute? || f.MoveRelative?
    case OtherKey(_) => false
  }

  predicate WellFormedArgs(m: Machine, f: Function, args: Args) {
    && args.Dict?
    && (forall key | key in args.entries :: Allowed(f, key))
    && (args.Has(AxisKey) ==> args.entries[AxisKey] == Int(1))
    && (Moves(f) ==>
          && (args.Has(SpeedKey) ==>
                && args.entries[SpeedKey].Finite()
                && 0.0 < args.entries[SpeedKey].Number() <= m.profile.maxSpeed)
          && (!f.Home? ==> args.Has(AngleKey) && args.entries[AngleKey].Finite()))
  }

  function TargetOf(m: Machine, s: State, f: Function, args: Args): real
    requires Moves(f) && WellFormedArgs(m, f, args)
  {
    if f.Home? then m.profile.home
    else args.entries[AngleKey].Number() + (if f.MoveRelative? then s.position else 0.0)
  }

  function Validate(m: Machine, s: State, f: Function, args: Args): Result {
    if f.OtherFunction? then UnknownFunction
    else if !WellFormedArgs(m, f, args) then InvalidArgument
    else if Moves(f) && s.alarm != 0 then Fault
    else if Moves(f) && !s.enabled then NotEnabled
    else if Moves(f) && s.busy then Busy
    else if Moves(f) && !f.Home? && !s.homed then NotHomed
    else if Moves(f) && !(m.profile.minimum <= TargetOf(m, s, f, args) <= m.profile.maximum) then Limit
    else if (f.ClearFault? || f.Enable?) && s.faults.AtLimit() then Limit
    else if f.Enable? && s.alarm != 0 then Fault
    else Ok
  }

  function SpeedOf(m: Machine, f: Function, args: Args): real
    requires Moves(f) && WellFormedArgs(m, f, args)
  {
    if args.Has(SpeedKey) then args.entries[SpeedKey].Number() else m.profile.maxSpeed
  }

  // ---------------------------------------------------------------------------------------------
  // State changes.

  function Cancelled(s: State): State {
    s.(busy := false, done := false, velocity := 0.0, target := s.position, phase := Idle, motion := Still)
  }

  function Clamp(m: Machine, position: real): real {
    Min(m.profile.maximum, Max(m.profile.minimum, position))
  }

  function Finished(s: State): State {
    s.(homed := s.homed || s.phase.Homing?, done := !s.phase.Stopping?,
       busy := false, velocity := 0.0, phase := Idle, motion := Still)
  }

  /** The state after `dt` more seconds; an invalid `dt` is refused and changes nothing.  A busy axis
      always has a motion to sample (`AxisInvariant`), so the last test never decides. */
  function Advanced(m: Machine, s: State, dt: real): State {
    if dt < 0.0 || !s.busy || s.faults.stalled || s.motion.Still? then s
    else
      var elapsed := s.elapsed + dt;
      var reading := Sample(s.motion, elapsed);
      var moved := s.(elapsed := elapsed, position := Clamp(m, reading.position), velocity := reading.velocity);
      if reading.finished then Finished(moved) else moved
  }

  function Planned(m: Machine, s: State): State
    requires m.profile.Valid()
  {
    var motion := PlanTrajectory(m.sqrt, s.position, s.target, s.speed,
                                 m.profile.acceleration, m.profile.deceleration);
    Advanced(m, s.(motion := motion, elapsed := 0.0, velocity := 0.0), 0.0)
  }

  function Accepted(m: Machine, s: State, f: Function, args: Args): State
    requires m.profile.Valid() && Moves(f) && WellFormedArgs(m, f, args)
  {
    Planned(m, s.(target := TargetOf(m, s, f, args), speed := SpeedOf(m, f, args),
               phase := if f.Home? then Homing else Moving, homed := s.homed && !f.Home?,
               busy := true, done := false))
  }

  function Halted(m: Machine, s: State): State
    requires m.profile.Valid()
  {
    if s.velocity == 0.0 then Cancelled(s)
    else
      var brake := PlanBrake(s.position, s.velocity, m.profile.deceleration);
      s.(phase := Stopping, done := false, motion := brake, elapsed := 0.0,
         target := Sample(brake, brake.duration).position)
  }

  function Executed(m: Machine, s: State, f: Function, args: Args): State
    requires m.profile.Valid()
  {
    if Validate(m, s, f, args) != Ok then s
    else if Moves(f) then Accepted(m, s, f, args)
    else if f.Enable? then s.(enabled := true)
    else if f.Disable? then Cancelled(s).(enabled := false, homed := false)
    else if f.ClearFault? then s.(alarm := 0)
    else if f.Stop? && s.busy then Halted(m, s)
    else s
  }

  predicate ValidFault(name: FaultName, active: Value) {
    !name.OtherFault? && active.Boolean?
  }

  function Faulted(m: Machine, s: State, name: FaultName, active: Value): State
    requires m.profile.Valid()
  {
    if !ValidFault(name, active) || s.faults.Active(name) == active.b then s
    else
      var t := s.(faults := s.faults.With(name, active.b));
      if !name.Stalled? && active.b then
        Cancelled(t).(alarm := if name.PositiveLimit? then 1 else 2)
      else if name.Stalled? && s.busy then
        if s.phase.Stopping? then Cancelled(t)
        else if active.b then t.(velocity := 0.0)
        else Planned(m, t)
      else t
  }

  // ---------------------------------------------------------------------------------------------
  // The axis as an object.

  class RotaryAxis {
    const machine: Machine
    var position: real
    var target: real
    var velocity: real
    var enabled: bool
    var homed: bool
    var busy: bool
    var done: bool
    var alarm: int
    var phase: Phase
    var faults: Faults
    var trajectory: Motion
    var elapsed: real
    var speed: real

    function View(): State
      reads this
    {
      State(position, target, velocity, enabled, homed, busy, done, alarm, phase, faults, trajectory, elapsed, speed)
    }

    constructor (machine: Machine)
      requires machine.profile.Valid()
      ensures this.machine == machine && View() == Initial(machine)
    {
      this.machine := machine;
      new;
      Reset();
    }

    method Reset()
      modifies this
      ensures View() == Initial(machine)
    {
      var profile := machine.profile;
      position, target, velocity := profile.initial, profile.initial, 0.0;
      enabled, homed, busy, done, alarm := false, false, false, false, 0;
      phase, faults := Idle, Faults(false, false, false);
      trajectory, elapsed, speed := Still, 0.0, profile.maxSpeed;
    }

    /** Refuses a non-finite or negative `dt`, as the caller's mistake. */
    method Advance(dt: Value) returns (accepted: bool)
      modifies this
      ensures accepted <==> dt.Finite() && dt.Number() >= 0.0
      ensures View() == if accepted then Advanced(machine, old(View()), dt.Number()) else old(View())
    {
      if !dt.Finite() || dt.Number() < 0.0 {
        return false;
      }
      accepted := true;
      if !busy || faults.stalled || trajectory.Still? {
        return;
      }
      elapsed := elapsed + dt.Number();
      var reading := Sample(trajectory, elapsed);
      position, velocity := Clamp(machine, reading.position), reading.velocity;
      if reading.finished {
        Finish();
      }
    }

    method Finish()
      modifies this
      ensures View() == Finished(old(View()))
    {
      if phase.Homing? {
        homed := true;
      }
      done := !phase.Stopping?;
      busy, velocity := false, 0.0;
      phase, trajectory := Idle, Still;
    }

    method Plan()
      requires machine.profile.Valid()
      modifies this
      ensures View() == Planned(machine, old(View()))
    {
      trajectory := PlanTrajectory(machine.sqrt, position, target, speed,
                                   machine.profile.acceleration, machine.profile.deceleration);
      elapsed := 0.0;
      velocity := 0.0;
      var _ := Advance(Int(0));
    }

    method Cancel()
      modifies this
      ensures View() == Cancelled(old(View()))
    {
      busy, done := false, false;
      velocity := 0.0;
      target := position;
      phase := Idle;
      trajectory := Still;
    }

    method Execute(f: Function, args: Args) returns (code: Result)
      requires machine.profile.Valid()
      modifies this
      ensures code == Validate(machine, old(View()), f, args)
      ensures View() == Executed(machine, old(View()), f, args)
    {
      code := Validate(machine, View(), f, args);
      if code != Ok {
        return;
      }
      if Moves(f) {
        Accept(f, args);
      } else if f.Enable? {
        enabled := true;
      } else if f.Disable? {
        Cancel();
        enabled, homed := false, false;
      } else if f.ClearFault? {
        alarm := 0;
      } else if f.Stop? && busy {
        Halt();
      }
    }

    method Accept(f: Function, args: Args)
      requires machine.profile.Valid() && Moves(f) && WellFormedArgs(machine, f, args)
      modifies this
      ensures View() == Accepted(machine, old(View()), f, args)
    {
      var goal, limit := TargetOf(machine, View(), f, args), SpeedOf(machine, f, args);
      if f.Home? {
        homed := false;
      }
      Begin(goal, limit, if f.Home? then Homing else Moving);
      Plan();
    }

    method Begin(goal: real, limit: real, kind: Phase)
      modifies this
      ensures View() == old(View()).(target := goal, speed := limit, phase := kind, busy := true, done := false)
    {
      target, speed, phase, busy, done := goal, limit, kind, true, false;
    }

    method Halt()
      requires machine.profile.Valid()
      modifies this
      ensures View() == Halted(machine, old(View()))
    {
      if velocity == 0.0 {
        Cancel();
      } else {
        phase, done := Stopping, false;
        trajectory := PlanBrake(position, velocity, machine.profile.deceleration);
        elapsed := 0.0;
        target := Sample(trajectory, trajectory.duration).position;
      }
    }

    method SetFault(name: FaultName, active: Value) returns (accepted: bool)
      requires machine.profile.Valid()
      modifies this
      ensures accepted <==> ValidFault(name, active)
      ensures View() == Faulted(machine, old(View()), name, active)
    {
      if !ValidFault(name, active) {
        return false;
      }
      accepted := true;
      if faults.Active(name) == active.b {
        return;
      }
      faults := faults.With(name, active.b);
      if !name.Stalled? && active.b {
        Cancel();
        alarm := if name.PositiveLimit? then 1 else 2;
      } else if name.Stalled? && busy {
        if phase.Stopping? {
          Cancel();
        } else if active.b {
          velocity := 0.0;
        } else {
          Plan();
        }
      }
    }
  }
}
