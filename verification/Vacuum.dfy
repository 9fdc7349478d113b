/** The vacuum chamber: everything it knows is in eight server nodes, which clients write too.  Each
    update reads what it needs from the nodes and overwrites them one after another.

    `exp` is a parameter; `Exponential` says what the convergence needs of it. */
module Vacuum {
  import opened Reals
  import opened Options

  /** A Double as a client may write it: NaN and the infinities are one case. */
  datatype Number = Finite(value: real) | NonFinite

  /** A node's value, null included, and whether its status is good. */
  datatype Node<T> = Node(value: Option<T>, good: bool) {
    function Read(): Option<T> {
      if good then value else None
    }
  }

  datatype Nodes = Nodes(
    valveCommand: Node<nat>, valveOpen: Node<bool>, valveResult: Node<nat>, command: Node<nat>,
    pressure: Node<Number>, state: Node<nat>, result: Node<nat>, alarm: Node<nat>)

  const ATMOSPHERE := 101325.0

  datatype Parameters = Parameters(pumpTau: real, ventTau: real, target: real, tolerance: real) {
    predicate Valid() {
      pumpTau > 0.0 && ventTau > 0.0 && tolerance > 0.0 && tolerance < target < ATMOSPHERE - tolerance
    }
  }

  const PARAMETERS := Parameters(0.2, 0.15, 1000.0, 20.0)

  function Written<T>(value: T): Node<T> {
    Node(Some(value), true)
  }

  /** What Reset writes. */
  const BASELINE := Nodes(Written(0), Written(false), Written(0), Written(0), Written(Finite(ATMOSPHERE)), Written(0),
                          Written(0), Written(0))

  // ---------------------------------------------------------------------------------------------
  // One update.

  function Valved(n: Nodes, isOpen: bool): Nodes {
    n.(valveOpen := Written(isOpen), valveResult := Written(2))
  }

  function FailedWith(n: Nodes, alarm: nat): Nodes {
    n.(state := Written(4), result := Written(3), alarm := Written(alarm))
  }

  function ValveObeyed(n: Nodes): Nodes {
    match n.valveCommand.Read()
    case None => n
    case Some(0) => n
    case Some(1) => Valved(n, true).(valveCommand := Written(0))
    case Some(2) => Valved(n, false).(valveCommand := Written(0))
    case _ => n.(valveResult := Written(3), alarm := Written(2), valveCommand := Written(0))
  }

  function CommandObeyed(n: Nodes): Nodes {
    match n.command.Read()
    case None => n
    case Some(0) => n
    case Some(1) =>
      if n.valveOpen.Read() == Some(false)
      then n.(alarm := Written(0), result := Written(1), state := Written(1), command := Written(0))
      else FailedWith(n, 1).(command := Written(0))
    case Some(2) => Valved(n.(state := Written(2), result := Written(1), alarm := Written(0)), true).(command := Written(0))
    case Some(3) => Valved(n.(state := Written(0), result := Written(0)), false).(command := Written(0))
    case _ => FailedWith(n, 2).(command := Written(0))
  }

  function Interlocked(n: Nodes): Nodes {
    if n.state.Read() == Some(1) && n.valveOpen.Read() == Some(true) then FailedWith(n, 1) else n
  }

  datatype Goal = Goal(pressure: real, tau: real)

  /** Where the pressure is heading, if anywhere. */
  function Heading(p: Parameters, n: Nodes): Option<Goal> {
    match n.valveOpen.Read()
    case None => None
    case Some(true) => Some(Goal(ATMOSPHERE, p.ventTau))
    case Some(false) => if n.state.Read() == Some(1) then Some(Goal(p.target, p.pumpTau)) else None
  }

  function Relaxed(exp: real -> real, goal: Goal, pressure: real, dt: real): real
    requires goal.tau > 0.0
  {
    var remaining := exp(-dt / goal.tau);
    pressure * remaining + goal.pressure * (1.0 - remaining)
  }

  /** Both procedures end once the pressure is close enough to where it is heading. */
  function Concluded(n: Nodes): Nodes {
    match (n.state.Read(), n.valveOpen.Read())
    case (Some(1), Some(false)) => n.(state := Written(3), result := Written(2))
    case (Some(2), Some(true)) => n.(state := Written(0), result := Written(2))
    case _ => n
  }

  function Moved(p: Parameters, exp: real -> real, n: Nodes, dt: real): Nodes
    requires p.Valid()
  {
    match (n.pressure.Read(), Heading(p, n))
    case (Some(Finite(pressure)), Some(goal)) =>
      var reached := Relaxed(exp, goal, pressure, dt);
      var moved := n.(pressure := Written(Finite(reached)));
      if Abs(reached - goal.pressure) <= p.tolerance then Concluded(moved) else moved
    case _ => n
  }

  function Stepped(p: Parameters, exp: real -> real, n: Nodes, dt: real): Nodes
    requires p.Valid()
  {
    Moved(p, exp, Interlocked(CommandObeyed(ValveObeyed(n))), dt)
  }

  class VacuumBehavior {
    const p: Parameters
    const exp: real -> real
    var valveCommand: Node<nat>
    var valveOpen: Node<bool>
    var valveResult: Node<nat>
    var command: Node<nat>
    var pressure: Node<Number>
    var state: Node<nat>
    var result: Node<nat>
    var alarm: Node<nat>

    function View(): Nodes
      reads this
    {
      Nodes(valveCommand, valveOpen, valveResult, command, pressure, state, result, alarm)
    }

    constructor (p: Parameters, exp: real -> real)
      requires p.Valid()
      ensures this.p == p && this.exp == exp && View() == BASELINE
    {
      this.p, this.exp := p, exp;
      valveCommand, valveOpen, valveResult, command := Written(0), Written(false), Written(0), Written(0);
      pressure, state, result, alarm := Written(Finite(ATMOSPHERE)), Written(0), Written(0), Written(0);
    }

    method Valve(isOpen: bool)
      modifies this
      ensures View() == Valved(old(View()), isOpen)
    {
      valveResult := Written(1);
      valveOpen := Written(isOpen);
      valveResult := Written(2);
    }

    method FailVacuum(code: nat)
      modifies this
      ensures View() == FailedWith(old(View()), code)
    {
      state := Written(4);
      result := Written(3);
      alarm := Written(code);
    }

    method ObeyValve()
      modifies this
      ensures View() == ValveObeyed(old(View()))
    {
      var wanted := valveCommand.Read();
      if wanted != None && wanted != Some(0) {
        if wanted == Some(1) || wanted == Some(2) {
          Valve(wanted == Some(1));
        } else {
          valveResult := Written(3);
          alarm := Written(2);
        }
        valveCommand := Written(0);
      }
    }

    method ObeyCommand()
      modifies this
      ensures View() == CommandObeyed(old(View()))
    {
      var wanted := command.Read();
      if wanted != None && wanted != Some(0) {
        if wanted == Some(1) {
          if valveOpen.Read() == Some(false) {
            alarm := Written(0);
            result := Written(1);
            state := Written(1);
          } else {
            FailVacuum(1);
          }
        } else if wanted == Some(2) {
          // The valve opens last, so that the state never says pumping while it does.
          state := Written(2);
          result := Written(1);
          alarm := Written(0);
          Valve(true);
        } else if wanted == Some(3) {
          state := Written(0);
          result := Written(0);
          Valve(false);
        } else {
          FailVacuum(2);
        }
        command := Written(0);
      }
    }

    /** The pressure moves towards where it is heading; `isOpen` and `current` are what was read of the
        valve and the state. */
    method Relax(isOpen: Option<bool>, current: Option<nat>, dt: real)
      requires p.Valid() && isOpen == valveOpen.Read() && current == state.Read()
      modifies this
      ensures View() == Moved(p, exp, old(View()), dt)
    {
      ghost var before := View();
      var reading := pressure.Read();
      if reading == None || reading == Some(NonFinite) {
        return;
      }
      var target, tau;
      if isOpen == Some(true) {
        target, tau := ATMOSPHERE, p.ventTau;
      } else if isOpen == Some(false) && current == Some(1) {
        target, tau := p.target, p.pumpTau;
      } else {
        return;
      }
      assert Heading(p, before) == Some(Goal(target, tau));
      var remaining := exp(-dt / tau);
      var reached := reading.value.value * remaining + target * (1.0 - remaining);
      assert reached == Relaxed(exp, Goal(target, tau), reading.value.value, dt);
      pressure := Written(Finite(reached));
      if Abs(reached - target) <= p.tolerance {
        Conclude(isOpen, current);
      }
    }

    method Conclude(isOpen: Option<bool>, current: Option<nat>)
      requires isOpen == valveOpen.Read() && current == state.Read()
      modifies this
      ensures View() == Concluded(old(View()))
    {
      if current == Some(1) && isOpen == Some(false) {
        state := Written(3);
        result := Written(2);
      } else if current == Some(2) && isOpen == Some(true) {
        state := Written(0);
        result := Written(2);
      }
    }

    /** False when `dt` is refused; the nodes are then untouched. */
    method Step(dt: Number) returns (accepted: bool)
      requires p.Valid()
      modifies this
      ensures accepted == (dt.Finite? && dt.value >= 0.0)
      ensures View() == if accepted then Stepped(p, exp, old(View()), dt.value) else old(View())
    {
      if dt.NonFinite? || dt.value < 0.0 {
        return false;
      }
      accepted := true;
      ObeyValve();
      ObeyCommand();
      var isOpen, current := valveOpen.Read(), state.Read();
      if current == Some(1) && isOpen == Some(true) {
        FailVacuum(1);
        current := Some(4);
      }
      Relax(isOpen, current, dt.value);
    }
  }
}
