/** What the motion profiles promise: every planned move and every stop is a smooth, forward-only
    motion that starts where it was planned, ends exactly where it was sent, and takes as long as its
    distance and speed say. */
module Kinematics {
  import opened Reals
  import opened Motion

  // ---------------------------------------------------------------------------------------------
  // Direction-free view: how far a motion has travelled, and how fast.

  /** A directed amount: what multiplying by a direction of 1 or -1 does. */
  ghost function Along(direction: real, x: real): real {
    if direction == 1.0 then x else -x
  }

  ghost function Area(peak: real, ta: real, td: real, tc: real): real {
    peak * ta / 2.0 + peak * tc + peak * td / 2.0
  }

  ghost function Distance(m: Motion): real
    requires !m.Still?
  {
    if m.Trajectory? then Area(m.peak, m.ta, m.td, m.tc) else Ramp(m.deceleration, m.duration)
  }

  /** The linear facts that make a planned motion behave; everything below follows from them. */
  ghost predicate WellPlanned(m: Motion) {
    match m
    case Still => false
    case Trajectory(start, target, direction, a, d, peak, ta, td, tc, duration) =>
      && a > 0.0 && d > 0.0 && (direction == 1.0 || direction == -1.0)
      && peak >= 0.0 && ta >= 0.0 && td >= 0.0 && tc >= 0.0
      && Gain(a, ta) == peak && Gain(d, td) == peak
      && (peak == 0.0 ==> ta == 0.0 && td == 0.0 && tc == 0.0)
      && duration == ta + tc + td
      && target == start + Along(direction, Distance(m))
    case Brake(position, velocity, deceleration, direction, duration) =>
      && deceleration > 0.0 && (direction == 1.0 || direction == -1.0)
      && duration >= 0.0
      && velocity == Along(direction, Gain(deceleration, duration))
  }

  ghost function Origin(m: Motion): real
    requires !m.Still?
  {
    if m.Trajectory? then m.start else m.position
  }

  ghost function End(m: Motion): real
    requires !m.Still?
  {
    Origin(m) + Along(m.direction, Distance(m))
  }

  ghost function Top(m: Motion): real
    requires !m.Still?
  {
    if m.Trajectory? then m.peak else Gain(m.deceleration, m.duration)
  }

  ghost function Steepest(m: Motion): real
    requires !m.Still?
  {
    if m.Trajectory? then Max(m.a, m.d) else m.deceleration
  }

  ghost function Travel(m: Motion, t: real): real
    requires !m.Still?
  {
    if t >= m.duration then Distance(m)
    else if m.Brake? then Distance(m) - Ramp(m.deceleration, m.duration - t)
    else if t < m.ta then Ramp(m.a, t)
    else if t < m.ta + m.tc then Cruise(m, t)
    else Distance(m) - Ramp(m.d, m.duration - t)
  }

  ghost function Rate(m: Motion, t: real): real
    requires !m.Still?
  {
    if t >= m.duration then 0.0
    else if m.Brake? then Gain(m.deceleration, m.duration - t)
    else if t < m.ta then Gain(m.a, t)
    else if t < m.ta + m.tc then m.peak
    else Gain(m.d, m.duration - t)
  }

  /** The rest of a braking ramp is itself a ramp, run backwards. */
  lemma BrakeRest(k: real, whole: real, t: real)
    ensures Gain(k, whole) * t - Ramp(k, t) == Ramp(k, whole) - Ramp(k, whole - t)
    ensures Gain(k, whole) - Gain(k, t) == Gain(k, whole - t)
    ensures Ramp(k, 0.0) == 0.0 && Gain(k, 0.0) == 0.0
  {
  }

  /** A product with the direction is a matter of sign. */
  lemma Signed(direction: real, x: real)
    requires direction == 1.0 || direction == -1.0
    ensures direction * x == Along(direction, x)
  {
  }

  lemma AlongSums(direction: real, x: real, y: real, h: real)
    ensures Along(direction, x) + Along(direction, y) == Along(direction, x + y)
    ensures Along(direction, x) - Along(direction, y) == Along(direction, x - y)
    ensures Along(direction, x) * h == Along(direction, x * h)
  {
  }

  lemma TrajectoryIsTravel(m: Motion, t: real)
    requires m.Trajectory? && WellPlanned(m)
    ensures Sample(m, t).position == m.start + Along(m.direction, Travel(m, t))
    ensures Sample(m, t).velocity == Along(m.direction, Rate(m, t))
  {
    if t < m.duration {
      if t < m.ta {
        Signed(m.direction, Ramp(m.a, t));
        Signed(m.direction, Gain(m.a, t));
      } else if t < m.ta + m.tc {
        Signed(m.direction, Cruise(m, t));
        Signed(m.direction, m.peak);
      } else {
        Signed(m.direction, Ramp(m.d, m.duration - t));
        Signed(m.direction, Gain(m.d, m.duration - t));
        AlongSums(m.direction, Distance(m), Ramp(m.d, m.duration - t), 0.0);
      }
    }
  }

  lemma BrakeIsTravel(m: Motion, u: real)
    requires m.Brake? && WellPlanned(m)
    ensures BrakeSample(m, u).position ==
      m.position + Along(m.direction, Ramp(m.deceleration, m.duration) - Ramp(m.deceleration, m.duration - u))
    ensures BrakeSample(m, u).velocity == Along(m.direction, Gain(m.deceleration, m.duration - u))
  {
    var whole, ramp, gain := Gain(m.deceleration, m.duration), Ramp(m.deceleration, u), Gain(m.deceleration, u);
    BrakeRest(m.deceleration, m.duration, u);
    Signed(m.direction, ramp);
    Signed(m.direction, gain);
    AlongSums(m.direction, whole, gain, u);
    AlongSums(m.direction, whole * u, ramp, 0.0);
  }

  /** The reading is the distance travelled and the speed, in the motion's direction. */
  lemma SampleIsTravel(m: Motion, t: real)
    requires WellPlanned(m)
    ensures Sample(m, t).position == Origin(m) + Along(m.direction, Travel(m, t))
    ensures Sample(m, t).velocity == Along(m.direction, Rate(m, t))
    ensures Sample(m, t).finished <==> t >= m.duration
  {
    if m.Trajectory? {
      TrajectoryIsTravel(m, t);
    } else {
      BrakeIsTravel(m, Min(t, m.duration));
      BrakeRest(m.deceleration, 0.0, 0.0);
    }
  }

  // ---------------------------------------------------------------------------------------------
  // Planning.

  /** The two ramps, each lasting peak/a or peak/d, cover p^2 (1/a + 1/d) / 2. */
  lemma RampArea(a: real, d: real, p: real)
    requires a > 0.0 && d > 0.0
    ensures 1.0 / a + 1.0 / d > 0.0
    ensures p * (p / a + p / d) / 2.0 == p * p * (1.0 / a + 1.0 / d) / 2.0
    ensures p / a + p / d == p * (1.0 / a + 1.0 / d)
  {
    var ia := 1.0 / a;
    var id := 1.0 / d;
    assert ia > 0.0 && id > 0.0;
    assert p / a == p * ia;
    assert p / d == p * id;
  }

  lemma Squares(x: real, y: real)
    requires 0.0 <= x <= y
    ensures x * x <= y * y
    ensures x < y ==> x * x < y * y
  {
    assert y * y - x * x == (y - x) * (y + x);
    var p, q := y - x, y + x;
    if x < y {
      assert p * q > 0.0;
    }
  }

  /** The peak speed never needs more distance than there is, and a triangle uses all of it. */
  lemma PeakFits(distance: real, speed: real, k: real, root: real, peak: real)
    requires distance >= 0.0 && speed > 0.0 && k > 0.0
    requires root >= 0.0 && root * root == distance * 2.0 / k
    requires peak == Min(speed, root)
    ensures 0.0 <= peak <= speed
    ensures peak * peak * k / 2.0 <= distance
    ensures peak < speed ==> peak * peak * k / 2.0 == distance
    ensures peak == 0.0 ==> distance == 0.0
  {
    var q := distance * 2.0 / k;
    assert q * k == distance * 2.0;
    Squares(peak, root);
    assert peak * peak <= q;
    assert peak * peak * k <= q * k;
    if peak < speed {
      assert peak * peak == q;
    }
  }

  lemma DirectedDistance(m: Motion, distance: real)
    requires m.Trajectory? && m.direction == (if m.target >= m.start then 1.0 else -1.0)
    requires distance == Abs(m.target - m.start) == Distance(m)
    ensures m.target == m.start + Along(m.direction, Distance(m))
  {
  }

  lemma ProfileCovers(m: Motion, distance: real, ramp: real, speed: real)
    requires m.Trajectory? && m.a > 0.0 && m.d > 0.0 && 0.0 <= m.peak <= speed
    requires m.ta == m.peak / m.a && m.td == m.peak / m.d
    requires m.peak * (m.ta + m.td) / 2.0 == ramp <= distance
    requires m.tc == if m.peak != 0.0 then Max(0.0, (distance - ramp) / m.peak) else 0.0
    requires m.peak < speed ==> ramp == distance
    requires m.peak == 0.0 ==> distance == 0.0
    requires m.duration == m.ta + m.tc + m.td
    ensures Distance(m) == distance
    ensures Gain(m.a, m.ta) == m.peak && Gain(m.d, m.td) == m.peak
    ensures m.ta >= 0.0 && m.td >= 0.0 && m.tc >= 0.0
    ensures m.peak == 0.0 ==> m.ta == 0.0 && m.td == 0.0 && m.tc == 0.0
    ensures m.peak == speed || m.tc == 0.0
  {
    if m.peak != 0.0 {
      var tc := (distance - ramp) / m.peak;
      assert tc >= 0.0;
      assert m.peak * tc == distance - ramp;
    }
    assert m.peak * (m.ta + m.td) == m.peak * m.ta + m.peak * m.td;
  }

  lemma ProfileIsWellPlanned(start: real, target: real, peak: real, a: real, d: real, speed: real)
    requires a > 0.0 && d > 0.0 && 0.0 <= peak <= speed
    requires peak * (peak / a + peak / d) / 2.0 <= Abs(target - start)
    requires peak < speed ==> peak * (peak / a + peak / d) / 2.0 == Abs(target - start)
    requires peak == 0.0 <==> start == target
    ensures var m := Profile(start, target, peak, a, d);
      && WellPlanned(m) && End(m) == target && Distance(m) == Abs(target - start)
      && (m.peak == speed || m.tc == 0.0)
  {
    var m := Profile(start, target, peak, a, d);
    var distance := Abs(target - start);
    ProfileCovers(m, distance, m.peak * (m.ta + m.td) / 2.0, speed);
    DirectedDistance(m, distance);
  }

  lemma PositiveProduct(peak: real, k: real)
    requires peak > 0.0 && k > 0.0
    ensures peak * peak * k > 0.0
  {
    assert peak * peak > 0.0;
  }

  lemma InversesArePositive(a: real, d: real)
    requires a > 0.0 && d > 0.0
    ensures 1.0 / a > 0.0 && 1.0 / d > 0.0
  {
  }

  lemma PlanPeak(sqrt: real -> real, distance: real, speed: real, a: real, d: real, peak: real)
    requires SquareRoot(sqrt) && distance >= 0.0 && speed > 0.0 && a > 0.0 && d > 0.0
    requires peak == Peak(sqrt, distance, speed, a, d)
    ensures 0.0 <= peak <= speed
    ensures peak * (peak / a + peak / d) / 2.0 <= distance
    ensures peak < speed ==> peak * (peak / a + peak / d) / 2.0 == distance
    ensures peak == 0.0 <==> distance == 0.0
  {
    var k := 1.0 / a + 1.0 / d;
    InversesArePositive(a, d);
    RampArea(a, d, peak);
    PeakFits(distance, speed, k, sqrt(distance * 2.0 / k), peak);
    if peak > 0.0 {
      PositiveProduct(peak, k);
    }
  }

  lemma PlanIsWellPlanned(sqrt: real -> real, start: real, target: real, speed: real, a: real, d: real)
    requires SquareRoot(sqrt) && speed > 0.0 && a > 0.0 && d > 0.0
    ensures var m := PlanTrajectory(sqrt, start, target, speed, a, d);
      && WellPlanned(m) && Origin(m) == start && End(m) == target
      && Distance(m) == Abs(target - start) && 0.0 <= m.peak <= speed
      && (m.peak == speed || m.tc == 0.0) && (m.peak == 0.0 <==> start == target)
  {
    var distance := Abs(target - start);
    var peak := Peak(sqrt, distance, speed, a, d);
    PlanPeak(sqrt, distance, speed, a, d, peak);
    ProfileIsWellPlanned(start, target, peak, a, d, speed);
  }

  // ---------------------------------------------------------------------------------------------
  // Kinematics.

  /** How much more is covered than at the first speed. */
  ghost function Lead(v: real, dx: real, h: real): real {
    dx - Gain(v, h)
  }

  ghost predicate SmoothStep(v: real, w: real, dx: real, h: real, steepest: real, top: real) {
    && 0.0 <= v <= top && 0.0 <= w <= top
    && 0.0 <= dx <= Gain(top, h)
    && -Gain(steepest, h) <= w - v <= Gain(steepest, h)
    && -Ramp(steepest, h) <= Lead(v, dx, h) <= Ramp(steepest, h)
  }

  /** From `t` to `u` the motion only goes forward, no faster than its top speed; its speed changes
      no faster than its steepest ramp; and its reported speed is the derivative of its reported
      distance, with the error that a change of speed on that ramp allows. */
  ghost predicate Smooth(m: Motion, t: real, u: real)
    requires !m.Still?
  {
    SmoothStep(Rate(m, t), Rate(m, u), Travel(m, u) - Travel(m, t), u - t, Steepest(m), Top(m))
  }

  lemma GainBound(x: real, bound: real, h: real)
    requires h >= 0.0 && -bound <= x <= bound
    ensures -Gain(bound, h) <= Gain(x, h) <= Gain(bound, h)
  {
  }

  lemma RampBound(k: real, steepest: real, h: real)
    requires h >= 0.0 && -steepest <= k <= steepest
    ensures -Ramp(steepest, h) <= Ramp(k, h) <= Ramp(steepest, h)
  {
    GainBound(k, steepest, h);
    GainBound(Gain(k, h), Gain(steepest, h), h);
  }

  lemma MeanSpeed(v: real, w: real, h: real, top: real)
    requires 0.0 <= v <= top && 0.0 <= w <= top && h >= 0.0
    ensures 0.0 <= (v + w) / 2.0 * h <= Gain(top, h)
  {
    GainBound((v + w) / 2.0, top, h);
  }

  lemma MeanCovers(v: real, k: real, h: real)
    ensures Gain(v, h) + Ramp(k, h) == (v + (v + Gain(k, h))) / 2.0 * h
  {
  }

  lemma UniformStep(v: real, w: real, dx: real, h: real, k: real, steepest: real, top: real)
    requires h >= 0.0 && w == v + Gain(k, h) && dx == Gain(v, h) + Ramp(k, h)
    requires -steepest <= k <= steepest
    requires 0.0 <= v <= top && 0.0 <= w <= top
    ensures SmoothStep(v, w, dx, h, steepest, top)
  {
    MeanCovers(v, k, h);
    MeanSpeed(v, w, h, top);
    GainBound(k, steepest, h);
    RampBound(k, steepest, h);
  }

  lemma GainSums(k: real, g: real, h: real)
    ensures Gain(k, g + h) == Gain(k, g) + Gain(k, h)
  {
  }

  lemma RampsJoin(k: real, g: real, h: real)
    ensures Ramp(k, g + h) == Ramp(k, g) + Gain(Gain(k, g), h) + Ramp(k, h)
  {
  }

  lemma LeadsJoin(v: real, w: real, dx: real, dy: real, g: real, h: real)
    ensures Lead(v, dx + dy, g + h) == Lead(v, dx, g) + Lead(w, dy, h) + Gain(w - v, h)
  {
  }

  lemma BoundsAdd(total: real, x: real, y: real, z: real, whole: real, a: real, b: real, c: real)
    requires total == x + y + z && whole == a + b + c
    requires -a <= x <= a && -b <= y <= b && -c <= z <= c
    ensures -whole <= total <= whole
  {
  }

  lemma StepsCompose(v: real, w: real, z: real, dx: real, dy: real, g: real, h: real, steepest: real, top: real)
    requires g >= 0.0 && h >= 0.0 && steepest >= 0.0
    requires SmoothStep(v, w, dx, g, steepest, top) && SmoothStep(w, z, dy, h, steepest, top)
    ensures SmoothStep(v, z, dx + dy, g + h, steepest, top)
  {
    GainSums(top, g, h);
    GainSums(steepest, g, h);
    GainBound(w - v, Gain(steepest, g), h);
    LeadsJoin(v, w, dx, dy, g, h);
    RampsJoin(steepest, g, h);
    BoundsAdd(Lead(v, dx + dy, g + h), Lead(v, dx, g), Lead(w, dy, h), Gain(w - v, h),
              Ramp(steepest, g + h), Ramp(steepest, g), Ramp(steepest, h), Gain(Gain(steepest, g), h));
  }

  lemma SmoothTransitive(m: Motion, t: real, u: real, w: real)
    requires !m.Still? && t <= u <= w && Steepest(m) >= 0.0
    requires Smooth(m, t, u) && Smooth(m, u, w)
    ensures Smooth(m, t, w)
  {
    StepsCompose(Rate(m, t), Rate(m, u), Rate(m, w), Travel(m, u) - Travel(m, t),
                 Travel(m, w) - Travel(m, u), u - t, w - u, Steepest(m), Top(m));
  }

  // Each piece by its own formula, its end points included: the pieces meet.

  lemma RampIsGain(k: real, t: real, v: real)
    requires Gain(k, t) == v
    ensures Ramp(k, t) == v * t / 2.0
  {
  }

  lemma Cruising(m: Motion, t: real)
    requires m.Trajectory? && WellPlanned(m) && m.ta <= t <= m.ta + m.tc
    ensures Travel(m, t) == Cruise(m, t) && Rate(m, t) == m.peak
  {
    if t == m.ta + m.tc {
      assert m.duration - t == m.td;
      RampIsGain(m.d, m.td, m.peak);
    }
  }

  lemma Accelerating(m: Motion, t: real)
    requires m.Trajectory? && WellPlanned(m) && 0.0 <= t <= m.ta
    ensures Travel(m, t) == Ramp(m.a, t) && Rate(m, t) == Gain(m.a, t)
  {
    if t == m.ta {
      Cruising(m, t);
      RampIsGain(m.a, t, m.peak);
    }
  }

  /** The deceleration that ends the motion. */
  ghost function Last(m: Motion): real
    requires !m.Still?
  {
    if m.Trajectory? then m.d else m.deceleration
  }

  lemma Braking(m: Motion, t: real)
    requires WellPlanned(m) && 0.0 <= t <= m.duration && (m.Trajectory? ==> m.ta + m.tc <= t)
    ensures Travel(m, t) == Distance(m) - Ramp(Last(m), m.duration - t)
    ensures Rate(m, t) == Gain(Last(m), m.duration - t)
  {
    BrakeRest(Last(m), 0.0, 0.0);
  }

  lemma ProductsOrdered(d: real, s: real, r: real, last: real)
    requires d > 0.0 && 0.0 <= s <= r <= last
    ensures 0.0 <= Gain(d, s) <= Gain(d, r) <= Gain(d, last)
  {
  }

  lemma SpeedingUp(a: real, t: real, u: real, last: real, steepest: real)
    requires 0.0 < a <= steepest && 0.0 <= t <= u <= last
    ensures SmoothStep(Gain(a, t), Gain(a, u), Ramp(a, u) - Ramp(a, t), u - t, steepest, Gain(a, last))
  {
    var h := u - t;
    var v, w := Gain(a, t), Gain(a, u);
    ProductsOrdered(a, t, u, last);
    assert w == v + Gain(a, h);
    assert Ramp(a, u) - Ramp(a, t) == v * h + Ramp(a, h);
    UniformStep(v, w, Ramp(a, u) - Ramp(a, t), h, a, steepest, Gain(a, last));
  }

  lemma SlowingDown(d: real, r: real, s: real, last: real, steepest: real)
    requires 0.0 < d <= steepest && 0.0 <= s <= r <= last
    ensures SmoothStep(Gain(d, r), Gain(d, s), Ramp(d, r) - Ramp(d, s), r - s, steepest, Gain(d, last))
  {
    var h := r - s;
    var v, w := Gain(d, r), Gain(d, s);
    ProductsOrdered(d, s, r, last);
    assert w == v + Gain(-d, h);
    assert Ramp(d, r) - Ramp(d, s) == v * h + Ramp(-d, h);
    UniformStep(v, w, Ramp(d, r) - Ramp(d, s), h, -d, steepest, Gain(d, last));
  }

  lemma AcceleratingSmooth(m: Motion, t: real, u: real)
    requires m.Trajectory? && WellPlanned(m) && 0.0 <= t <= u <= m.ta
    ensures Smooth(m, t, u)
  {
    Accelerating(m, t);
    Accelerating(m, u);
    SpeedingUp(m.a, t, u, m.ta, Steepest(m));
  }

  lemma CruisingSmooth(m: Motion, t: real, u: real)
    requires m.Trajectory? && WellPlanned(m) && m.ta <= t <= u <= m.ta + m.tc
    ensures Smooth(m, t, u)
  {
    Cruising(m, t);
    Cruising(m, u);
    var h := u - t;
    BrakeRest(0.0, h, h);
    assert Cruise(m, u) - Cruise(m, t) == m.peak * h;
    UniformStep(m.peak, m.peak, m.peak * h, h, 0.0, Steepest(m), m.peak);
  }

  lemma BrakingSmooth(m: Motion, t: real, u: real)
    requires WellPlanned(m) && 0.0 <= t <= u <= m.duration && (m.Trajectory? ==> m.ta + m.tc <= t)
    ensures Smooth(m, t, u)
  {
    Braking(m, t);
    Braking(m, u);
    SlowingDown(Last(m), m.duration - t, m.duration - u, if m.Trajectory? then m.td else m.duration, Steepest(m));
  }

  lemma TopIsReached(m: Motion)
    requires WellPlanned(m)
    ensures Top(m) >= 0.0 && Steepest(m) > 0.0
  {
  }

  lemma RestingSmooth(m: Motion, t: real, u: real)
    requires WellPlanned(m) && m.duration <= t <= u
    ensures Smooth(m, t, u)
  {
    TopIsReached(m);
    BrakeRest(0.0, u - t, u - t);
    UniformStep(0.0, 0.0, 0.0, u - t, 0.0, Steepest(m), Top(m));
  }

  lemma SmoothOnceBraking(m: Motion, t: real, u: real)
    requires WellPlanned(m) && 0.0 <= t <= u && (m.Trajectory? ==> m.ta + m.tc <= t)
    ensures Smooth(m, t, u)
  {
    var last := m.duration;
    if last <= t {
      RestingSmooth(m, t, u);
    } else if u <= last {
      BrakingSmooth(m, t, u);
    } else {
      BrakingSmooth(m, t, last);
      RestingSmooth(m, last, u);
      TopIsReached(m);
      SmoothTransitive(m, t, last, u);
    }
  }

  lemma SmoothOnceCruising(m: Motion, t: real, u: real)
    requires m.Trajectory? && WellPlanned(m) && m.ta <= t <= u
    ensures Smooth(m, t, u)
  {
    var last := m.ta + m.tc;
    if last <= t {
      SmoothOnceBraking(m, t, u);
    } else if u <= last {
      CruisingSmooth(m, t, u);
    } else {
      CruisingSmooth(m, t, last);
      SmoothOnceBraking(m, last, u);
      TopIsReached(m);
      SmoothTransitive(m, t, last, u);
    }
  }

  /** Main kinematic result, for trapezoids, triangles, zero distances and stops alike. */
  lemma MotionIsSmooth(m: Motion, t: real, u: real)
    requires WellPlanned(m) && 0.0 <= t <= u
    ensures Smooth(m, t, u)
  {
    if m.Brake? {
      SmoothOnceBraking(m, t, u);
    } else if m.ta <= t {
      SmoothOnceCruising(m, t, u);
    } else if u <= m.ta {
      AcceleratingSmooth(m, t, u);
    } else {
      AcceleratingSmooth(m, t, m.ta);
      SmoothOnceCruising(m, m.ta, u);
      TopIsReached(m);
      SmoothTransitive(m, t, m.ta, u);
    }
  }

  ghost predicate SmoothReadings(direction: real, p: Reading, q: Reading, h: real, steepest: real, top: real) {
    var dx, dv := q.position - p.position, q.velocity - p.velocity;
    && 0.0 <= Along(direction, dx) <= Gain(top, h)
    && 0.0 <= Along(direction, p.velocity) <= top
    && Abs(dv) <= Gain(steepest, h)
    && Abs(Lead(p.velocity, dx, h)) <= Ramp(steepest, h)
  }

  lemma DirectedLead(direction: real, v: real, h: real, dx: real)
    ensures Lead(Along(direction, v), Along(direction, dx), h) == Along(direction, Lead(v, dx, h))
  {
    AlongSums(direction, v, 0.0, h);
  }

  lemma DirectedBounds(direction: real, x: real, bound: real, y: real, limit: real)
    requires -bound <= x <= bound && -limit <= y <= limit
    ensures Abs(Along(direction, x)) <= bound && Abs(Along(direction, y)) <= limit
  {
  }

  lemma DirectedStep(direction: real, p: Reading, q: Reading, v: real, w: real, dx: real, h: real,
                     steepest: real, top: real)
    requires SmoothStep(v, w, dx, h, steepest, top)
    requires p.velocity == Along(direction, v) && q.velocity == Along(direction, w)
    requires q.position - p.position == Along(direction, dx)
    ensures SmoothReadings(direction, p, q, h, steepest, top)
  {
    DirectedLead(direction, v, h, dx);
    AlongSums(direction, w, v, 0.0);
    DirectedBounds(direction, Lead(v, dx, h), Ramp(steepest, h), w - v, Gain(steepest, h));
  }

  /** The same result on what `Sample` reports, with the direction of the motion put back. */
  lemma SampleIsSmooth(m: Motion, t: real, u: real)
    requires WellPlanned(m) && 0.0 <= t <= u
    ensures SmoothReadings(m.direction, Sample(m, t), Sample(m, u), u - t, Steepest(m), Top(m))
  {
    MotionIsSmooth(m, t, u);
    SampleIsTravel(m, t);
    SampleIsTravel(m, u);
    DirectedStep(m.direction, Sample(m, t), Sample(m, u), Rate(m, t), Rate(m, u),
                 Travel(m, u) - Travel(m, t), u - t, Steepest(m), Top(m));
  }

  lemma SlowerIsNearer(top: real, limit: real, h: real)
    requires 0.0 <= top <= limit && 0.0 <= h
    ensures 0.0 <= Gain(top, h) <= Gain(limit, h)
  {
  }

  lemma SampleMovesAtMost(m: Motion, t: real, u: real, h: real, limit: real)
    requires WellPlanned(m) && 0.0 <= t <= u && h == u - t && Top(m) <= limit
    ensures Abs(Sample(m, u).position - Sample(m, t).position) <= Gain(limit, h)
  {
    SampleIsSmooth(m, t, u);
    TopIsReached(m);
    SlowerIsNearer(Top(m), limit, h);
  }

  /** Once finished, a motion reads the same for ever. */
  lemma SampleStays(m: Motion, t: real, u: real)
    requires !m.Still? && t <= u && Sample(m, t).finished
    ensures Sample(m, u) == Sample(m, t)
  {
    if m.Brake? {
      assert Min(t, m.duration) == m.duration == Min(u, m.duration);
    }
  }

  // ---------------------------------------------------------------------------------------------
  // Start, arrival and what lies between.

  lemma StartsAtRest(m: Motion)
    requires WellPlanned(m)
    ensures Travel(m, 0.0) == 0.0
    ensures m.Trajectory? ==> Rate(m, 0.0) == 0.0
    ensures m.Brake? ==> Rate(m, 0.0) == Top(m)
  {
    BrakeRest(if m.Trajectory? then m.a else m.deceleration, m.duration, m.duration);
    if m.Trajectory? {
      Accelerating(m, 0.0);
    } else {
      Braking(m, 0.0);
    }
  }

  /** Position at any time lies between the origin and the end, nearer the end as time passes. */
  lemma StaysOnTheWay(m: Motion, t: real)
    requires WellPlanned(m) && 0.0 <= t
    ensures 0.0 <= Travel(m, t) <= Distance(m)
  {
    StartsAtRest(m);
    MotionIsSmooth(m, 0.0, t);
    MotionIsSmooth(m, t, Max(t, m.duration));
  }

  lemma PositiveArea(peak: real, ta: real, td: real, tc: real)
    requires peak >= 0.0 && ta >= 0.0 && td >= 0.0 && tc >= 0.0 && ta + td + tc > 0.0
    requires peak == 0.0 ==> ta == 0.0 && td == 0.0 && tc == 0.0
    ensures Area(peak, ta, td, tc) > 0.0
  {
    var time := ta / 2.0 + tc + td / 2.0;
    assert peak * time > 0.0;
  }

  lemma WellPlannedEnds(m: Motion)
    requires m.Trajectory? && WellPlanned(m)
    ensures Sample(m, 0.0).position == m.start && Sample(m, 0.0).velocity == 0.0
    ensures Sample(m, 0.0).finished <==> m.start == m.target
  {
    StartsAtRest(m);
    SampleIsTravel(m, 0.0);
    if m.duration > 0.0 {
      PositiveArea(m.peak, m.ta, m.td, m.tc);
    }
  }

  lemma FasterIsAllowed(direction: real, p: Reading, q: Reading, h: real, steepest: real, top: real, limit: real)
    requires SmoothReadings(direction, p, q, h, steepest, top) && 0.0 <= top <= limit && 0.0 <= h
    ensures SmoothReadings(direction, p, q, h, steepest, limit)
  {
    SlowerIsNearer(top, limit, h);
  }

  /** Every planned move, trapezoid, triangle or of no length: it starts at rest where it was planned,
      ends at rest exactly at its target, never exceeds the requested speed or the steeper of the two
      ramps, and reads as one continuous forward motion in between. */
  lemma PlannedMoveIsSmooth(sqrt: real -> real, start: real, target: real, speed: real, a: real, d: real,
                            t: real, u: real)
    requires SquareRoot(sqrt) && speed > 0.0 && a > 0.0 && d > 0.0 && 0.0 <= t <= u
    ensures var m := PlanTrajectory(sqrt, start, target, speed, a, d);
      && Sample(m, 0.0) == Reading(start, 0.0, start == target)
      && (Sample(m, t).finished <==> t >= m.duration)
      && (t >= m.duration ==> Sample(m, t) == Reading(target, 0.0, true))
      && SmoothReadings(if target >= start then 1.0 else -1.0, Sample(m, t), Sample(m, u), u - t, Max(a, d), speed)
  {
    PlanIsWellPlanned(sqrt, start, target, speed, a, d);
    var m := PlanTrajectory(sqrt, start, target, speed, a, d);
    WellPlannedEnds(m);
    SampleIsTravel(m, t);
    SampleIsSmooth(m, t, u);
    FasterIsAllowed(m.direction, Sample(m, t), Sample(m, u), u - t, Max(a, d), m.peak, speed);
  }

  function TimeAtSpeed(distance: real, speed: real): real
    requires speed > 0.0
  {
    distance / speed
  }

  /** What two full ramps add to the time a move would take at full speed. */
  function RampAllowance(speed: real, a: real, d: real): real
    requires a > 0.0 && d > 0.0
  {
    speed * (1.0 / a + 1.0 / d) / 2.0
  }

  lemma RampTimes(start: real, target: real, peak: real, a: real, d: real)
    requires a > 0.0 && d > 0.0
    ensures var m := Profile(start, target, peak, a, d); m.ta + m.td == peak * (1.0 / a + 1.0 / d)
    ensures 1.0 / a + 1.0 / d > 0.0
  {
    RampArea(a, d, peak);
  }

  lemma CompletedSquare(p: real, s: real, k: real)
    requires k > 0.0
    ensures s * (p * k) <= p * (p * k) / 2.0 + s * (s * k / 2.0)
  {
    var e := p - s;
    assert e * e >= 0.0;
    assert e * e * k >= 0.0;
    assert p * (p * k) + s * (s * k) - 2.0 * (s * (p * k)) == e * e * k;
  }

  lemma AreaBound(peak: real, ta: real, td: real, tc: real, speed: real, k: real)
    requires 0.0 <= peak <= speed && ta >= 0.0 && td >= 0.0 && tc >= 0.0 && k > 0.0
    requires ta + td == peak * k
    requires peak == speed || tc == 0.0
    ensures Area(peak, ta, td, tc) <= speed * (ta + tc + td)
    ensures speed * (ta + tc + td) <= Area(peak, ta, td, tc) + speed * (speed * k / 2.0)
  {
    var ramps := ta + td;
    assert Area(peak, ta, td, tc) == peak * ramps / 2.0 + peak * tc;
    assert peak * ramps <= speed * ramps;
    assert peak * tc == speed * tc;
    assert speed * (ta + tc + td) == speed * ramps + speed * tc;
    assert speed * ramps >= 0.0;
    CompletedSquare(peak, speed, k);
  }

  lemma GainGrows(k: real, s: real, t: real)
    requires k > 0.0 && s < t
    ensures Gain(k, s) < Gain(k, t)
  {
    var h := t - s;
    assert k * h > 0.0;
  }

  lemma GainCancels(k: real, s: real, t: real)
    requires k > 0.0 && Gain(k, s) >= Gain(k, t)
    ensures s >= t
  {
    if s < t {
      GainGrows(k, s, t);
    }
  }

  lemma QuotientBounds(distance: real, speed: real, duration: real, extra: real)
    requires speed > 0.0
    requires distance <= speed * duration <= distance + speed * extra
    ensures distance / speed <= duration <= distance / speed + extra
  {
    var q := distance / speed;
    assert Gain(speed, q) == distance;
    assert Gain(speed, q + extra) == distance + speed * extra;
    GainCancels(speed, duration, q);
    GainCancels(speed, q + extra, duration);
  }

  lemma MoveDuration(m: Motion, speed: real, a: real, d: real)
    requires m.Trajectory? && WellPlanned(m) && a > 0.0 && d > 0.0 && m.peak <= speed && 0.0 < speed
    requires 1.0 / a + 1.0 / d > 0.0 && m.ta + m.td == m.peak * (1.0 / a + 1.0 / d)
    requires m.peak == speed || m.tc == 0.0
    ensures TimeAtSpeed(Distance(m), speed) <= m.duration
    ensures m.duration <= TimeAtSpeed(Distance(m), speed) + RampAllowance(speed, a, d)
  {
    AreaBound(m.peak, m.ta, m.td, m.tc, speed, 1.0 / a + 1.0 / d);
    QuotientBounds(Distance(m), speed, m.duration, RampAllowance(speed, a, d));
  }

  lemma ProfileDuration(start: real, target: real, peak: real, speed: real, a: real, d: real)
    requires a > 0.0 && d > 0.0 && 0.0 < speed && peak <= speed
    requires var m := Profile(start, target, peak, a, d); WellPlanned(m) && (m.peak == speed || m.tc == 0.0)
    ensures var m := Profile(start, target, peak, a, d);
      var least := TimeAtSpeed(Distance(m), speed);
      least <= m.duration <= least + RampAllowance(speed, a, d)
  {
    RampTimes(start, target, peak, a, d);
    MoveDuration(Profile(start, target, peak, a, d), speed, a, d);
  }

  /** A move takes at least the time at full speed, and at most what two full ramps add. */
  lemma DurationBounds(sqrt: real -> real, start: real, target: real, speed: real, a: real, d: real)
    requires SquareRoot(sqrt) && speed > 0.0 && a > 0.0 && d > 0.0
    ensures var least := TimeAtSpeed(Abs(target - start), speed);
      least <= PlanTrajectory(sqrt, start, target, speed, a, d).duration <= least + RampAllowance(speed, a, d)
  {
    PlanIsWellPlanned(sqrt, start, target, speed, a, d);
    ProfileDuration(start, target, Peak(sqrt, Abs(target - start), speed, a, d), speed, a, d);
  }

  // ---------------------------------------------------------------------------------------------
  // Stopping.

  lemma BrakeIsWellPlanned(position: real, velocity: real, deceleration: real)
    requires deceleration > 0.0
    ensures var b := PlanBrake(position, velocity, deceleration);
      WellPlanned(b) && Origin(b) == position && (b.duration > 0.0 <==> velocity != 0.0)
  {
    var b := PlanBrake(position, velocity, deceleration);
    assert Gain(deceleration, b.duration) == Abs(velocity);
  }

  lemma RampGrows(k: real, s: real, t: real)
    requires k > 0.0 && 0.0 <= s <= t
    ensures 0.0 <= Ramp(k, s) <= Ramp(k, t)
  {
    Squares(s, t);
    var x, y := s * s, t * t;
    assert k * x <= k * y;
  }

  lemma RateIsForward(m: Motion, t: real)
    requires WellPlanned(m) && 0.0 <= t
    ensures 0.0 <= Rate(m, t) <= Top(m)
  {
    MotionIsSmooth(m, t, t);
  }

  /** A motion of no length does not move. */
  lemma NoDistanceNoSpeed(m: Motion)
    requires m.Trajectory? && WellPlanned(m) && Distance(m) == 0.0
    ensures m.peak == 0.0 && m.duration == 0.0
  {
    if m.duration > 0.0 {
      PositiveArea(m.peak, m.ta, m.td, m.tc);
    }
  }

  lemma PartOfCruise(peak: real, u: real, tc: real)
    requires peak >= 0.0 && 0.0 <= u <= tc
    ensures 0.0 <= peak * u <= peak * tc
  {
  }

  lemma RestAfterCruise(m: Motion, t: real)
    requires m.Trajectory? && WellPlanned(m) && m.ta <= t <= m.ta + m.tc
    ensures Cruise(m, t) + m.peak * m.td / 2.0 <= Distance(m)
  {
    PartOfCruise(m.peak, t - m.ta, m.tc);
  }

  lemma RestAfterRamp(m: Motion, ramp: real)
    requires m.Trajectory? && WellPlanned(m) && ramp <= m.peak * m.ta / 2.0
    ensures ramp + m.peak * m.td / 2.0 <= Distance(m)
  {
    PartOfCruise(m.peak, 0.0, m.tc);
  }

  /** Before its own braking ramp a move has covered no more than leaves that ramp. */
  lemma RampIsLeft(m: Motion, t: real)
    requires m.Trajectory? && WellPlanned(m) && 0.0 <= t <= m.ta + m.tc
    ensures Travel(m, t) + Ramp(m.d, m.td) <= Distance(m)
  {
    RampIsGain(m.d, m.td, m.peak);
    if m.ta <= t {
      Cruising(m, t);
      RestAfterCruise(m, t);
    } else {
      Accelerating(m, t);
      RampGrows(m.a, t, m.ta);
      RampIsGain(m.a, m.ta, m.peak);
      RestAfterRamp(m, Ramp(m.a, t));
    }
  }

  /** From anywhere on a planned move there is room to brake before its target; once the move is
      itself braking, the room is used up exactly. */
  lemma RoomToBrake(m: Motion, t: real, r: real)
    requires m.Trajectory? && WellPlanned(m) && 0.0 <= t && Gain(m.d, r) == Rate(m, t)
    ensures 0.0 <= r && Travel(m, t) + Ramp(m.d, r) <= Distance(m)
    ensures m.ta + m.tc <= t ==> Travel(m, t) + Ramp(m.d, r) == Distance(m)
  {
    RateIsForward(m, t);
    BrakeRest(m.d, 0.0, 0.0);
    GainCancels(m.d, r, 0.0);
    if m.duration <= t {
      GainCancels(m.d, 0.0, r);
    } else if m.ta + m.tc <= t {
      Braking(m, t);
      GainCancels(m.d, r, m.duration - t);
      GainCancels(m.d, m.duration - t, r);
    } else {
      GainCancels(m.d, m.td, r);
      RampGrows(m.d, r, m.td);
      RampIsLeft(m, t);
    }
  }

  /** Braking again while braking changes nothing: the second brake is the rest of the first. */
  lemma BrakingAgain(b: Motion, t: real, u: real)
    requires b.Brake? && WellPlanned(b) && 0.0 <= t < b.duration && 0.0 <= u
    ensures var again := PlanBrake(Sample(b, t).position, Sample(b, t).velocity, b.deceleration);
      && WellPlanned(again) && again.duration == b.duration - t && End(again) == End(b)
      && again.direction == b.direction
      && Sample(again, u) == Sample(b, t + u)
  {
    var again := PlanBrake(Sample(b, t).position, Sample(b, t).velocity, b.deceleration);
    BrakeIsWellPlanned(Sample(b, t).position, Sample(b, t).velocity, b.deceleration);
    SampleIsTravel(b, t);
    Braking(b, t);
    MotionIsSmooth(b, t, t);
    var rest := b.duration - t;
    ProductsOrdered(b.deceleration, rest, rest, rest);
    if Gain(b.deceleration, rest) == 0.0 {
      GainCancels(b.deceleration, 0.0, rest);
    }
    assert Gain(b.deceleration, again.duration) == Gain(b.deceleration, rest);
    GainCancels(b.deceleration, rest, again.duration);
    GainCancels(b.deceleration, again.duration, rest);
    SampleIsTravel(b, t + u);
    SampleIsTravel(again, u);
  }
}
