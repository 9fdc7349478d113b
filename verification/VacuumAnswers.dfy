/** What one update of the vacuum chamber makes of each command, and what it does to the pressure. */
module VacuumAnswers {
  import opened Reals
  import opened Options
  import opened Vacuum
  import opened VacuumTheorems

  /** The valve as a valve command leaves it: 1 opens, 2 closes, nothing else moves it. */
  function ValveAfter(n: Nodes): Node<bool> {
    if n.valveCommand.Read() == Some(1) then Node(Some(true), true)
    else if n.valveCommand.Read() == Some(2) then Node(Some(false), true)
    else n.valveOpen
  }

  // ---------------------------------------------------------------------------------------------
  // Valve commands.

  /** Without a vacuum command, a valve command is obeyed and cleared; a code that means nothing leaves the
      valve and shows as result 3 and alarm 2, unless the interlock has an alarm of its own to show. */
  lemma ValveCommandIsObeyed(p: Parameters, exp: real -> real, n: Nodes, dt: real)
    requires p.Valid() && NoCommand(n.command.Read())
    ensures var t, code := Stepped(p, exp, n, dt), n.valveCommand.Read();
      && t.valveOpen == ValveAfter(n)
      && (NoCommand(code) ==> t.valveCommand == n.valveCommand && t.valveResult == n.valveResult)
      && (!NoCommand(code) ==> t.valveCommand == Written(0))
      && (code == Some(1) || code == Some(2) ==> t.valveResult == Written(2))
      && (!NoCommand(code) && code != Some(1) && code != Some(2) ==>
            t.valveResult == Written(3) && t.alarm == Written(if PumpsIntoOpenValve(n) then 1 else 2))
  {
  }

  /** Opening the valve while pumping ends the procedure with alarm 1. */
  lemma OpeningEndsPumping(p: Parameters, exp: real -> real, n: Nodes, dt: real)
    requires p.Valid() && NoCommand(n.command.Read())
    requires n.valveCommand.Read() == Some(1) && n.state.Read() == Some(1)
    ensures var t := Stepped(p, exp, n, dt);
      t.state == Written(4) && t.result == Written(3) && t.alarm == Written(1) && t.valveOpen == Written(true)
  {
  }

  /** Closing a closed valve while pumping does not: the curve goes on. */
  lemma ClosingKeepsPumping(p: Parameters, exp: real -> real, n: Nodes, dts: seq<real>, x: real)
    requires p.Valid() && Exponential(exp) && Forward(dts) && dts != []
    requires n.valveCommand.Read() == Some(2) && Underway(PumpDown, p, n.(valveCommand := Written(0)), x)
    ensures Follows(PumpDown, p, Updates(p, exp, n, dts), Residue(exp, PumpDown.ToGoal(p), Sum(dts), x))
  {
    var m := ValveObeyed(n);
    LeftAlone(m);
    assert Stepped(p, exp, n, dts[0]) == Stepped(p, exp, m, dts[0]);
    assert Updates(p, exp, n, dts) == Updates(p, exp, m, dts);
    FollowsTheCurve(PumpDown, p, exp, m, dts, x);
  }

  /** Opening the valve after a pump-down, or closing it while venting, leaves the state as it is. */
  lemma OtherStatesKeep(p: Parameters, exp: real -> real, n: Nodes, dt: real)
    requires p.Valid() && NoCommand(n.command.Read()) && n.state.Read().Some? && n.state.Read() != Some(1)
    requires n.state.Read() != Some(2) || ValveAfter(n).Read() != Some(true)
    ensures var t := Stepped(p, exp, n, dt); t.state == n.state && t.result == n.result
  {
  }

  // ---------------------------------------------------------------------------------------------
  // Vacuum commands.

  /** State and result of a procedure that has just moved the pressure: over if it is close enough. */
  predicate RunsOrEnds(p: Parameters, procedure: Procedure, t: Nodes) {
    || (t.state == Written(procedure.Running()) && t.result == Written(1))
    || (t.state == Written(procedure.Final()) && t.result == Written(2)
        && t.pressure.Read().Some? && t.pressure.Read().value.Finite?
        && Abs(t.pressure.Read().value.value - procedure.ToGoal(p).pressure) <= p.tolerance)
  }

  /** Every vacuum command is cleared.  Pumping needs a valve that is closed after any valve command of the
      same update; venting opens it; stopping closes it and says nothing; any other code is alarm 2. */
  lemma VacuumCommandIsObeyed(p: Parameters, exp: real -> real, n: Nodes, dt: real)
    requires p.Valid() && !NoCommand(n.command.Read())
    ensures var t, code, valve := Stepped(p, exp, n, dt), n.command.Read(), ValveAfter(n);
      && t.command == Written(0)
      && (code == Some(1) ==>
            t.valveOpen == valve
            && if valve.Read() == Some(false) then RunsOrEnds(p, PumpDown, t) && t.alarm == Written(0)
               else t.state == Written(4) && t.result == Written(3) && t.alarm == Written(1))
      && (code == Some(2) ==>
            RunsOrEnds(p, Vent, t) && t.alarm == Written(0) && t.valveOpen == Written(true) && t.valveResult == Written(2))
      && (code == Some(3) ==>
            t.state == Written(0) && t.result == Written(0) && t.valveOpen == Written(false)
            && t.valveResult == Written(2) && t.pressure == n.pressure)
      && (code != Some(1) && code != Some(2) && code != Some(3) ==>
            t.state == Written(4) && t.result == Written(3) && t.alarm == Written(2) && t.valveOpen == valve)
  {
  }

  /** Without commands only the interlock and the end of a procedure touch state, result and alarm. */
  lemma NothingElseChanges(p: Parameters, exp: real -> real, n: Nodes, dt: real)
    requires p.Valid() && Quiet(n)
    ensures var t := Stepped(p, exp, n, dt);
      && t.command == n.command && t.valveCommand == n.valveCommand && t.valveOpen == n.valveOpen
      && t.valveResult == n.valveResult
      && (PumpsIntoOpenValve(n) ==> t.state == Written(4) && t.result == Written(3) && t.alarm == Written(1))
      && (!PumpsIntoOpenValve(n) ==> t.alarm == n.alarm)
      && (!PumpsIntoOpenValve(n) && t.state != n.state ==>
            || (n.state.Read() == Some(1) && RunsOrEnds(p, PumpDown, t))
            || (n.state.Read() == Some(2) && RunsOrEnds(p, Vent, t)))
  {
  }

  // ---------------------------------------------------------------------------------------------
  // Pressure.

  /** An open valve lets the pressure move towards the atmosphere whatever the state; a closed one holds it
      unless the chamber is pumping, and then it moves towards the target; an unreadable one holds it. */
  lemma PressureAnswers(p: Parameters, exp: real -> real, n: Nodes, dt: real, pressure: real)
    requires p.Valid() && Exponential(exp) && dt >= 0.0 && Quiet(n)
    requires n.pressure.Read() == Some(Finite(pressure))
    ensures var t := Stepped(p, exp, n, dt);
      && (n.valveOpen.Read() == Some(true) ==>
            t.pressure == Written(Finite(ATMOSPHERE + Residue(exp, Goal(ATMOSPHERE, p.ventTau), dt, pressure - ATMOSPHERE))))
      && (n.valveOpen.Read() == Some(false) && n.state.Read() == Some(1) ==>
            t.pressure == Written(Finite(p.target + Residue(exp, Goal(p.target, p.pumpTau), dt, pressure - p.target))))
      && (n.valveOpen.Read() == None || (n.valveOpen.Read() == Some(false) && n.state.Read() != Some(1)) ==>
            t.pressure == n.pressure)
  {
    var m := Interlocked(n);
    assert Stepped(p, exp, n, dt) == Moved(p, exp, m, dt);
    RelaxedContracts(exp, Goal(ATMOSPHERE, p.ventTau), pressure, dt);
    RelaxedContracts(exp, Goal(p.target, p.pumpTau), pressure, dt);
  }

  /** A pressure that cannot be read, or is no number, is left alone. */
  lemma StrangePressureStays(p: Parameters, exp: real -> real, n: Nodes, dt: real)
    requires p.Valid() && (n.pressure.Read() == None || n.pressure.Read() == Some(NonFinite))
    ensures Stepped(p, exp, n, dt).pressure == n.pressure
  {
  }

  /** Reset leaves the chamber at atmosphere, closed and idle. */
  lemma ResetIsAtRest()
    ensures BASELINE.pressure.Read() == Some(Finite(101325.0)) && BASELINE.valveOpen.Read() == Some(false)
    ensures BASELINE.state.Read() == Some(0) && BASELINE.result.Read() == Some(0) && BASELINE.alarm.Read() == Some(0)
    ensures Quiet(BASELINE) && BASELINE.valveResult.Read() == Some(0)
  {
  }
}
