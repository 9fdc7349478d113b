/** What the vacuum chamber promises: the interlock, the pump-down and vent curves and when they end,
    and what an operator who only writes commands can ever see. */
module VacuumTheorems {
  import opened Reals
  import opened Options
  import opened Vacuum

  // ---------------------------------------------------------------------------------------------
  // The exponential.

  predicate Adds(exp: real -> real, x: real, y: real) {
    exp(x + y) == exp(x) * exp(y)
  }

  predicate Falls(exp: real -> real, x: real) {
    x >= 0.0 ==> 0.0 < exp(-x) && exp(-x) * (1.0 + x) <= 1.0
  }

  ghost predicate Exponential(exp: real -> real) {
    exp(0.0) == 1.0 && (forall x, y :: Adds(exp, x, y)) && (forall x :: Falls(exp, x))
  }

  /** What is left of a deviation after `t`. */
  function Left(exp: real -> real, goal: Goal, t: real): real
    requires goal.tau > 0.0
  {
    exp(-t / goal.tau)
  }

  lemma Shrinks(e: real, x: real)
    requires e > 0.0 && x >= 0.0 && e * (1.0 + x) <= 1.0
    ensures e <= 1.0
  {
    assert e * x >= 0.0;
  }

  lemma NegatedQuotient(t: real, tau: real)
    requires tau > 0.0
    ensures -t / tau == -(t / tau)
  {
  }

  lemma QuotientOfForward(t: real, tau: real)
    requires tau > 0.0 && t >= 0.0
    ensures t / tau >= 0.0
  {
  }

  /** After `x` time constants. */
  lemma LeftFalls(exp: real -> real, goal: Goal, t: real, x: real)
    requires Exponential(exp) && goal.tau > 0.0 && x >= 0.0 && t / goal.tau == x
    ensures 0.0 < Left(exp, goal, t) && Left(exp, goal, t) * (1.0 + x) <= 1.0
  {
    NegatedQuotient(t, goal.tau);
    assert Falls(exp, x);
  }

  lemma LeftIsAFraction(exp: real -> real, goal: Goal, t: real)
    requires Exponential(exp) && goal.tau > 0.0 && t >= 0.0
    ensures 0.0 < Left(exp, goal, t) <= 1.0
  {
    var x := t / goal.tau;
    QuotientOfForward(t, goal.tau);
    LeftFalls(exp, goal, t, x);
    Shrinks(Left(exp, goal, t), x);
  }

  lemma NegatedSum(a: real, b: real, tau: real)
    requires tau > 0.0
    ensures -(a + b) / tau == -a / tau + -b / tau
  {
  }

  lemma LeftMultiplies(exp: real -> real, goal: Goal, a: real, b: real)
    requires Exponential(exp) && goal.tau > 0.0
    ensures Left(exp, goal, a + b) == Left(exp, goal, a) * Left(exp, goal, b)
  {
    NegatedSum(a, b, goal.tau);
    assert Adds(exp, -a / goal.tau, -b / goal.tau);
  }

  /** What becomes of a deviation `x` in time `t`. */
  function Residue(exp: real -> real, goal: Goal, t: real, x: real): real
    requires goal.tau > 0.0
  {
    Left(exp, goal, t) * x
  }

  lemma Scaled(r: real, x: real)
    requires 0.0 < r <= 1.0 && x >= 0.0
    ensures 0.0 <= r * x <= x
  {
  }

  /** It keeps its side and does not grow. */
  lemma ResidueContracts(exp: real -> real, goal: Goal, t: real, x: real)
    requires Exponential(exp) && goal.tau > 0.0 && t >= 0.0
    ensures var y := Residue(exp, goal, t, x); 0.0 <= y <= x || x <= y <= 0.0
  {
    LeftIsAFraction(exp, goal, t);
    var left := Left(exp, goal, t);
    if x >= 0.0 {
      Scaled(left, x);
    } else {
      Scaled(left, -x);
      assert left * -x == -(left * x);
    }
  }

  lemma Regrouped(a: real, b: real, x: real)
    ensures b * (a * x) == (a * b) * x
  {
  }

  lemma ResidueSplits(exp: real -> real, goal: Goal, a: real, b: real, x: real)
    requires Exponential(exp) && goal.tau > 0.0
    ensures Residue(exp, goal, a + b, x) == Residue(exp, goal, b, Residue(exp, goal, a, x))
  {
    LeftMultiplies(exp, goal, a, b);
    Regrouped(Left(exp, goal, a), Left(exp, goal, b), x);
  }

  lemma ResidueOfNothing(exp: real -> real, goal: Goal, x: real)
    requires Exponential(exp) && goal.tau > 0.0
    ensures Residue(exp, goal, 0.0, x) == x
  {
    assert -0.0 / goal.tau == 0.0;
  }

  // ---------------------------------------------------------------------------------------------
  // The interlock.

  predicate PumpsIntoOpenValve(n: Nodes) {
    n.state.Read() == Some(1) && n.valveOpen.Read() == Some(true)
  }

  /** Whatever was written before, no update ends pumping with the valve open. */
  lemma InterlockHolds(p: Parameters, exp: real -> real, n: Nodes, dt: real)
    requires p.Valid()
    ensures !PumpsIntoOpenValve(Stepped(p, exp, n, dt))
  {
  }

  predicate NoCommand(code: Option<nat>) {
    code == None || code == Some(0)
  }

  predicate Quiet(n: Nodes) {
    NoCommand(n.valveCommand.Read()) && NoCommand(n.command.Read())
  }

  /** The interlock acts on what it can read: without commands, the stored values survive an update
      exactly if one of the two nodes is marked bad. */
  lemma InterlockNeedsGoodNodes(p: Parameters, exp: real -> real, n: Nodes, dt: real)
    requires p.Valid() && Quiet(n)
    requires n.state.value == Some(1) && n.valveOpen.value == Some(true)
    ensures var t := Stepped(p, exp, n, dt);
      (t.state.value == Some(1) && t.valveOpen.value == Some(true)) <==> !(n.state.good && n.valveOpen.good)
  {
  }

  // ---------------------------------------------------------------------------------------------
  // One update of the pressure.

  /** An update multiplies the deviation, and so neither crosses the goal nor moves away from it. */
  lemma RelaxedContracts(exp: real -> real, goal: Goal, pressure: real, dt: real)
    requires Exponential(exp) && goal.tau > 0.0 && dt >= 0.0
    ensures var reached := Relaxed(exp, goal, pressure, dt);
      && reached - goal.pressure == Residue(exp, goal, dt, pressure - goal.pressure)
      && Between(goal.pressure, reached, pressure)
  {
    ResidueContracts(exp, goal, dt, pressure - goal.pressure);
  }

  // ---------------------------------------------------------------------------------------------
  // Pumping down and venting, left alone.

  datatype Procedure = PumpDown | Vent {
    function Running(): nat {
      if PumpDown? then 1 else 2
    }
    function Final(): nat {
      if PumpDown? then 3 else 0
    }
    function ToGoal(p: Parameters): Goal {
      if PumpDown? then Goal(p.target, p.pumpTau) else Goal(ATMOSPHERE, p.ventTau)
    }
  }

  /** No command pending, the valve as the procedure wants it and a reading of the pressure. */
  predicate Undisturbed(procedure: Procedure, n: Nodes) {
    Quiet(n) && n.valveOpen.Read() == Some(procedure.Vent?) && n.pressure.Read().Some? && n.pressure.Read().value.Finite?
  }

  predicate InProgress(procedure: Procedure, n: Nodes) {
    Undisturbed(procedure, n) && n.state.Read() == Some(procedure.Running())
  }

  function Deviation(procedure: Procedure, p: Parameters, n: Nodes): real
    requires Undisturbed(procedure, n)
  {
    n.pressure.Read().value.value - procedure.ToGoal(p).pressure
  }

  predicate Completed(procedure: Procedure, p: Parameters, n: Nodes) {
    && Undisturbed(procedure, n)
    && n.state.Read() == Some(procedure.Final()) && n.result.Read() == Some(2)
    && Abs(Deviation(procedure, p, n)) <= p.tolerance
  }

  lemma LeftAlone(n: Nodes)
    requires Quiet(n) && !PumpsIntoOpenValve(n)
    ensures Interlocked(CommandObeyed(ValveObeyed(n))) == n
  {
  }

  lemma OneMove(procedure: Procedure, p: Parameters, exp: real -> real, n: Nodes, dt: real)
    requires p.Valid() && InProgress(procedure, n)
    ensures var t, reached := Moved(p, exp, n, dt), Relaxed(exp, procedure.ToGoal(p), n.pressure.Read().value.value, dt);
      && Undisturbed(procedure, t) && t.pressure.Read().value.value == reached
      && if Abs(reached - procedure.ToGoal(p).pressure) <= p.tolerance
         then t.state.Read() == Some(procedure.Final()) && t.result.Read() == Some(2)
         else t.state.Read() == Some(procedure.Running())
  {
  }

  /** Running, with this deviation to go. */
  predicate Underway(procedure: Procedure, p: Parameters, n: Nodes, deviation: real) {
    InProgress(procedure, n) && Deviation(procedure, p, n) == deviation
  }

  predicate Follows(procedure: Procedure, p: Parameters, n: Nodes, deviation: real) {
    if Abs(deviation) <= p.tolerance then Completed(procedure, p, n) else Underway(procedure, p, n, deviation)
  }

  lemma OneUpdate(procedure: Procedure, p: Parameters, exp: real -> real, n: Nodes, dt: real, x: real)
    requires p.Valid() && Exponential(exp) && dt >= 0.0 && Underway(procedure, p, n, x)
    ensures Follows(procedure, p, Stepped(p, exp, n, dt), Residue(exp, procedure.ToGoal(p), dt, x))
  {
    LeftAlone(n);
    RelaxedContracts(exp, procedure.ToGoal(p), n.pressure.Read().value.value, dt);
    OneMove(procedure, p, exp, n, dt);
  }

  /** A completed procedure stays completed; after a pump-down the pressure does not move at all. */
  lemma CompletedStays(procedure: Procedure, p: Parameters, exp: real -> real, n: Nodes, dt: real)
    requires p.Valid() && Exponential(exp) && dt >= 0.0 && Completed(procedure, p, n)
    ensures Completed(procedure, p, Stepped(p, exp, n, dt))
    ensures procedure.PumpDown? ==> Stepped(p, exp, n, dt) == n
  {
    RelaxedContracts(exp, procedure.ToGoal(p), n.pressure.Read().value.value, dt);
    LeftAlone(n);
  }

  function Updates(p: Parameters, exp: real -> real, n: Nodes, dts: seq<real>): Nodes
    requires p.Valid()
    decreases |dts|
  {
    if dts == [] then n else Updates(p, exp, Stepped(p, exp, n, dts[0]), dts[1..])
  }

  function Sum(dts: seq<real>): real {
    if dts == [] then 0.0 else dts[0] + Sum(dts[1..])
  }

  predicate Forward(dts: seq<real>) {
    forall i | 0 <= i < |dts| :: dts[i] >= 0.0
  }

  lemma {:induction false} SumIsForward(dts: seq<real>)
    requires Forward(dts)
    ensures Sum(dts) >= 0.0
  {
    if dts != [] {
      SumIsForward(dts[1..]);
    }
  }

  lemma {:induction false} CompletedStaysCompleted(procedure: Procedure, p: Parameters, exp: real -> real, n: Nodes,
                                                   dts: seq<real>)
    requires p.Valid() && Exponential(exp) && Forward(dts) && Completed(procedure, p, n)
    ensures Completed(procedure, p, Updates(p, exp, n, dts))
    decreases |dts|
  {
    if dts != [] {
      CompletedStays(procedure, p, exp, n, dts[0]);
      CompletedStaysCompleted(procedure, p, exp, Stepped(p, exp, n, dts[0]), dts[1..]);
    }
  }

  /** However the time is cut into updates, the deviation follows one exponential curve until it is
      within tolerance, and the procedure is complete exactly when it has got there. */
  lemma {:induction false} FollowsTheCurve(procedure: Procedure, p: Parameters, exp: real -> real, n: Nodes,
                                           dts: seq<real>, x: real)
    requires p.Valid() && Exponential(exp) && Forward(dts) && dts != [] && Underway(procedure, p, n, x)
    ensures Follows(procedure, p, Updates(p, exp, n, dts), Residue(exp, procedure.ToGoal(p), Sum(dts), x))
    decreases |dts|
  {
    var goal, rest, next := procedure.ToGoal(p), dts[1..], Stepped(p, exp, n, dts[0]);
    var y := Residue(exp, goal, dts[0], x);
    OneUpdate(procedure, p, exp, n, dts[0], x);
    SumIsForward(rest);
    ResidueSplits(exp, goal, dts[0], Sum(rest), x);
    ResidueContracts(exp, goal, Sum(rest), y);
    if Abs(y) <= p.tolerance {
      CompletedStaysCompleted(procedure, p, exp, next, rest);
    } else if rest == [] {
      ResidueOfNothing(exp, goal, y);
    } else {
      FollowsTheCurve(procedure, p, exp, next, rest, y);
    }
  }

  /** A time that is certainly enough: the deviation over the tolerance, less one, in time constants. */
  function Enough(goal: Goal, deviation: real, tolerance: real): real
    requires tolerance > 0.0
  {
    goal.tau * (Abs(deviation) / tolerance - 1.0)
  }

  lemma AbsScales(r: real, x: real)
    requires 0.0 < r <= 1.0
    ensures Abs(r * x) == r * Abs(x)
  {
    if x >= 0.0 {
      Scaled(r, x);
    } else {
      Scaled(r, -x);
      assert r * -x == -(r * x);
    }
  }

  lemma EnoughTime(t: real, tau: real, bound: real)
    requires tau > 0.0 && t >= tau * bound
    ensures t / tau >= bound
  {
  }

  lemma Ordered(factor: real, x: real, y: real)
    requires factor > 0.0 && x <= y
    ensures factor * x <= factor * y
  {
  }

  lemma AtMost(e: real, deviation: real, deviations: real, tolerance: real, product: real)
    requires product <= tolerance && product == tolerance * (e * deviations) && deviation == deviations * tolerance
    ensures e * deviation <= tolerance
  {
    assert e * deviation == product;
  }

  lemma SmallEnough(e: real, x: real, deviations: real, tolerance: real)
    requires e > 0.0 && e * (1.0 + x) <= 1.0 && tolerance > 0.0
    requires x >= deviations - 1.0
    ensures tolerance * (e * deviations) <= tolerance
  {
    Ordered(e, deviations, 1.0 + x);
    Ordered(tolerance, e * deviations, 1.0);
  }

  lemma QuotientTimes(x: real, y: real)
    requires y > 0.0
    ensures x == (x / y) * y
  {
  }

  lemma SmallDeviation(e: real, x: real, deviation: real, deviations: real, tolerance: real)
    requires e > 0.0 && e * (1.0 + x) <= 1.0 && tolerance > 0.0
    requires deviation == deviations * tolerance && x >= deviations - 1.0
    ensures e * deviation <= tolerance
  {
    SmallEnough(e, x, deviations, tolerance);
    AtMost(e, deviation, deviations, tolerance, tolerance * (e * deviations));
  }

  lemma EnoughIsLeft(exp: real -> real, goal: Goal, t: real, x: real, bound: real, deviation: real, tolerance: real)
    requires Exponential(exp) && goal.tau > 0.0 && t >= 0.0 && x == t / goal.tau && tolerance > 0.0
    requires bound == deviation / tolerance - 1.0 && x >= bound
    ensures Left(exp, goal, t) * deviation <= tolerance
  {
    QuotientOfForward(t, goal.tau);
    LeftFalls(exp, goal, t, x);
    QuotientTimes(deviation, tolerance);
    SmallDeviation(Left(exp, goal, t), x, deviation, deviation / tolerance, tolerance);
  }

  lemma EnoughLeavesLittle(exp: real -> real, goal: Goal, t: real, x: real, tolerance: real)
    requires Exponential(exp) && goal.tau > 0.0 && t >= 0.0 && tolerance > 0.0 && t >= Enough(goal, x, tolerance)
    ensures Abs(Residue(exp, goal, t, x)) <= tolerance
  {
    var bound := Abs(x) / tolerance - 1.0;
    EnoughTime(t, goal.tau, bound);
    EnoughIsLeft(exp, goal, t, t / goal.tau, bound, Abs(x), tolerance);
    LeftIsAFraction(exp, goal, t);
    AbsScales(Left(exp, goal, t), x);
  }

  lemma CompletesInTime(procedure: Procedure, p: Parameters, exp: real -> real, n: Nodes, dts: seq<real>, x: real)
    requires p.Valid() && Exponential(exp) && Forward(dts) && dts != [] && Underway(procedure, p, n, x)
    requires Sum(dts) >= Enough(procedure.ToGoal(p), x, p.tolerance)
    ensures Completed(procedure, p, Updates(p, exp, n, dts))
  {
    SumIsForward(dts);
    EnoughLeavesLittle(exp, procedure.ToGoal(p), Sum(dts), x, p.tolerance);
    FollowsTheCurve(procedure, p, exp, n, dts, x);
  }

  function Repeated(dt: real, count: nat): seq<real> {
    if count == 0 then [] else [dt] + Repeated(dt, count - 1)
  }

  lemma OneMoreTime(dt: real, count: nat)
    requires count > 0
    ensures count as real * dt == dt + (count - 1) as real * dt
  {
    assert count as real == (count - 1) as real + 1.0;
  }

  lemma {:induction false} SumOfEqual(dt: real, count: nat)
    requires dt >= 0.0
    ensures Sum(Repeated(dt, count)) == count as real * dt
    ensures Forward(Repeated(dt, count)) && |Repeated(dt, count)| == count
    decreases count
  {
    if count > 0 {
      assert Repeated(dt, count)[1..] == Repeated(dt, count - 1);
      SumOfEqual(dt, count - 1);
      OneMoreTime(dt, count);
    }
  }

  /** With regular updates: this many of them. */
  lemma CompletesAfter(procedure: Procedure, p: Parameters, exp: real -> real, n: Nodes, dt: real, count: nat, x: real)
    requires p.Valid() && Exponential(exp) && dt > 0.0 && count > 0 && Underway(procedure, p, n, x)
    requires count as real >= Enough(procedure.ToGoal(p), x, p.tolerance) / dt
    ensures Completed(procedure, p, Updates(p, exp, n, Repeated(dt, count)))
  {
    SumOfEqual(dt, count);
    Ordered(dt, Enough(procedure.ToGoal(p), x, p.tolerance) / dt, count as real);
    CompletesInTime(procedure, p, exp, n, Repeated(dt, count), x);
  }

  function Power(k: nat): real {
    if k == 0 then 1.0 else 2.0 * Power(k - 1)
  }

  lemma AtMostHalf(r: real, x: real)
    requires 2.0 * r <= 1.0 && x >= 0.0
    ensures r * x * 2.0 <= x
  {
  }

  lemma HalvedAbs(r: real, x: real)
    requires 0.0 < r && 2.0 * r <= 1.0
    ensures Abs(r * x) * 2.0 <= Abs(x)
  {
    AbsScales(r, x);
    AtMostHalf(r, Abs(x));
  }

  lemma HalvesOnce(exp: real -> real, goal: Goal, x: real)
    requires Exponential(exp) && goal.tau > 0.0
    ensures Abs(Residue(exp, goal, goal.tau, x)) * 2.0 <= Abs(x)
  {
    LeftFalls(exp, goal, goal.tau, 1.0);
    HalvedAbs(Left(exp, goal, goal.tau), x);
  }

  lemma PowerIsPositive(k: nat)
    ensures Power(k) > 0.0
  {
  }

  lemma Doubled(a: real, b: real, k: nat)
    requires a * 2.0 <= b && k > 0
    ensures a * Power(k) <= b * Power(k - 1)
  {
    PowerIsPositive(k - 1);
    Ordered(Power(k - 1), a * 2.0, b);
  }

  /** Every time constant at least halves what is left. */
  lemma {:induction false} Halves(exp: real -> real, goal: Goal, t: real, x: real, k: nat)
    requires Exponential(exp) && goal.tau > 0.0 && t >= k as real * goal.tau
    ensures Abs(Residue(exp, goal, t, x)) * Power(k) <= Abs(x)
    decreases k
  {
    ResidueContracts(exp, goal, t, x);
    if k > 0 {
      var before := t - goal.tau;
      var y := Residue(exp, goal, before, x);
      assert k as real * goal.tau == (k - 1) as real * goal.tau + goal.tau;
      Halves(exp, goal, before, x, k - 1);
      ResidueSplits(exp, goal, before, goal.tau, x);
      HalvesOnce(exp, goal, y);
      Doubled(Abs(Residue(exp, goal, t, x)), Abs(y), k);
    } else {
      assert t >= 0.0;
    }
  }

  /** From the command to the end: a pump command on a closed valve, or a vent command on any, starts
      the curve at once. */
  lemma CommandIsCarriedOut(procedure: Procedure, p: Parameters, exp: real -> real, n: Nodes, dts: seq<real>, pressure: real)
    requires p.Valid() && Exponential(exp) && Forward(dts) && dts != []
    requires n.valveCommand.Read() == Some(0) && n.command.Read() == Some(procedure.Running())
    requires procedure.PumpDown? ==> n.valveOpen.Read() == Some(false)
    requires n.pressure.Read() == Some(Finite(pressure))
    ensures var goal := procedure.ToGoal(p);
      Follows(procedure, p, Updates(p, exp, n, dts), Residue(exp, goal, Sum(dts), pressure - goal.pressure))
  {
    var m := CommandObeyed(n);
    LeftAlone(m);
    assert Stepped(p, exp, n, dts[0]) == Stepped(p, exp, m, dts[0]);
    assert Updates(p, exp, n, dts) == Updates(p, exp, m, dts);
    FollowsTheCurve(procedure, p, exp, m, dts, pressure - procedure.ToGoal(p).pressure);
  }

  lemma ThirteenHalvings()
    ensures Power(13) == 8192.0
  {
    assert Power(4) == 16.0;
    assert Power(8) == 256.0;
    assert Power(12) == 4096.0;
  }

  /** With the settings of the device, 2.6 seconds pump down from atmosphere. */
  lemma PumpDownFromAtmosphere(exp: real -> real, dts: seq<real>)
    requires Exponential(exp) && Forward(dts) && Sum(dts) >= 2.6
    ensures var t := Updates(PARAMETERS, exp, BASELINE.(command := Written(1)), dts);
      && Completed(PumpDown, PARAMETERS, t)
      && t.state.Read() == Some(3) && 980.0 <= t.pressure.Read().value.value <= 1020.0
  {
    var goal := PumpDown.ToGoal(PARAMETERS);
    assert dts != [];
    ThirteenHalvings();
    Halves(exp, goal, Sum(dts), ATMOSPHERE - goal.pressure, 13);
    CommandIsCarriedOut(PumpDown, PARAMETERS, exp, BASELINE.(command := Written(1)), dts, ATMOSPHERE);
  }

  /** And 1.95 seconds vent from any pressure up to atmosphere, whatever the state and the valve. */
  lemma VentFromAnyPressure(exp: real -> real, n: Nodes, dts: seq<real>, pressure: real)
    requires Exponential(exp) && Forward(dts) && Sum(dts) >= 1.95
    requires n.valveCommand.Read() == Some(0) && n.command.Read() == Some(2)
    requires n.pressure.Read() == Some(Finite(pressure)) && 0.0 <= pressure <= ATMOSPHERE
    ensures var t := Updates(PARAMETERS, exp, n, dts);
      && Completed(Vent, PARAMETERS, t)
      && t.state.Read() == Some(0) && 101305.0 <= t.pressure.Read().value.value <= 101345.0
  {
    var goal := Vent.ToGoal(PARAMETERS);
    assert dts != [];
    ThirteenHalvings();
    Halves(exp, goal, Sum(dts), pressure - ATMOSPHERE, 13);
    CommandIsCarriedOut(Vent, PARAMETERS, exp, n, dts, pressure);
  }

  // ---------------------------------------------------------------------------------------------
  // An operator who writes only the two command nodes.

  datatype Event = ValveCommand(code: nat) | VacuumCommand(code: nat) | Update(dt: real) | Reset

  function After(p: Parameters, exp: real -> real, n: Nodes, event: Event): Nodes
    requires p.Valid()
  {
    match event
    case ValveCommand(code) => n.(valveCommand := Written(code))
    case VacuumCommand(code) => n.(command := Written(code))
    case Update(dt) => if dt >= 0.0 then Stepped(p, exp, n, dt) else n
    case Reset => BASELINE
  }

  function Operated(p: Parameters, exp: real -> real, n: Nodes, events: seq<Event>): Nodes
    requires p.Valid()
    decreases |events|
  {
    if events == [] then n else Operated(p, exp, After(p, exp, n, events[0]), events[1..])
  }

  /** Idle, pumping, venting, pumped and failed, each with the results it can show. */
  predicate CodesAgree(state: nat, result: nat, alarm: nat) {
    match state
    case 0 => result == 0 || result == 2
    case 1 => result == 1
    case 2 => result == 1
    case 3 => result == 2
    case 4 => result == 3 && alarm != 0
    case _ => false
  }

  predicate Agreed(p: Parameters, n: Nodes) {
    && (n.valveCommand.Read().Some? && n.valveResult.Read().Some? && n.command.Read().Some?)
    && n.valveOpen.Read().Some?
    && n.pressure.Read().Some? && n.pressure.Read().value.Finite?
    && p.target <= n.pressure.Read().value.value <= ATMOSPHERE
    && n.alarm.Read().Some? && n.alarm.Read().value <= 2
    && n.state.Read().Some? && n.result.Read().Some?
    && CodesAgree(n.state.Read().value, n.result.Read().value, n.alarm.Read().value)
  }

  /** The codes go together, the interlock holds and the pressure stays between its two goals. */
  predicate Orderly(p: Parameters, n: Nodes) {
    Agreed(p, n) && !PumpsIntoOpenValve(n)
  }

  lemma ValveIsOrderly(p: Parameters, n: Nodes)
    requires Agreed(p, n)
    ensures Agreed(p, ValveObeyed(n))
  {
  }

  lemma CommandIsOrderly(p: Parameters, n: Nodes)
    requires Agreed(p, n)
    ensures Agreed(p, CommandObeyed(n))
  {
  }

  lemma ObeyingIsOrderly(p: Parameters, n: Nodes)
    requires p.Valid() && Agreed(p, n)
    ensures Orderly(p, Interlocked(CommandObeyed(ValveObeyed(n))))
  {
    ValveIsOrderly(p, n);
    CommandIsOrderly(p, ValveObeyed(n));
  }

  lemma MovedIsOrderly(p: Parameters, exp: real -> real, m: Nodes, dt: real)
    requires p.Valid() && Exponential(exp) && dt >= 0.0 && Orderly(p, m)
    ensures Orderly(p, Moved(p, exp, m, dt))
  {
    var heading := Heading(p, m);
    if heading.Some? {
      RelaxedContracts(exp, heading.value, m.pressure.Read().value.value, dt);
    }
  }

  lemma UpdateIsOrderly(p: Parameters, exp: real -> real, n: Nodes, dt: real)
    requires p.Valid() && Exponential(exp) && dt >= 0.0 && Orderly(p, n)
    ensures Orderly(p, Stepped(p, exp, n, dt))
  {
    ObeyingIsOrderly(p, n);
    MovedIsOrderly(p, exp, Interlocked(CommandObeyed(ValveObeyed(n))), dt);
  }

  lemma {:induction false} OperatorSeesOrder(p: Parameters, exp: real -> real, n: Nodes, events: seq<Event>)
    requires p.Valid() && Exponential(exp) && Orderly(p, n)
    ensures Orderly(p, Operated(p, exp, n, events))
    decreases |events|
  {
    if events != [] {
      var event := events[0];
      if event.Update? && event.dt >= 0.0 {
        UpdateIsOrderly(p, exp, n, event.dt);
      }
      OperatorSeesOrder(p, exp, After(p, exp, n, event), events[1..]);
    }
  }

  lemma EveryRunIsOrderly(p: Parameters, exp: real -> real, events: seq<Event>)
    requires p.Valid() && Exponential(exp)
    ensures Orderly(p, Operated(p, exp, BASELINE, events))
  {
    OperatorSeesOrder(p, exp, BASELINE, events);
  }
}
