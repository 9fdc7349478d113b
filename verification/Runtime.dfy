/** Ordered start, health, reset and stop of a machine's hardware instances.

    Every call to an instance is logged; `fails` says of each call, by its place in the log, whether it
    raises, so a proof for all `fails` is a proof for every pattern of failures. */
module Runtime {
  datatype Operation = Validate | Start | CheckHealth | Reset | Diagnose | Stop

  datatype Call<H> = Call(operation: Operation, hardware: H)

  datatype State = New | Running | Failed | Stopped

  datatype Machine<H> = Machine(hardware: seq<H>, state: State, active: seq<H>, log: seq<Call<H>>) {
    /** Before the start no instance has been called. */
    predicate Valid() {
      state.New? ==> active == [] && log == []
    }
  }

  /** `Raised` names the calls a LifecycleError reports, if it is one. */
  datatype Outcome<H> = Done | Refused | Raised(failures: seq<Call<H>>)

  // ---------------------------------------------------------------------------------------------
  // Series of calls.

  function Each<H>(operation: Operation, hardware: seq<H>): seq<Call<H>> {
    if hardware == [] then []
    else Each(operation, hardware[..|hardware| - 1]) + [Call(operation, hardware[|hardware| - 1])]
  }

  function Startups<H>(hardware: seq<H>): seq<Call<H>> {
    if hardware == [] then []
    else
      var last := hardware[|hardware| - 1];
      Startups(hardware[..|hardware| - 1]) + [Call(Start, last), Call(CheckHealth, last)]
  }

  /** The last instance first. */
  function Stops<H>(hardware: seq<H>): seq<Call<H>> {
    if hardware == [] then []
    else [Call(Stop, hardware[|hardware| - 1])] + Stops(hardware[..|hardware| - 1])
  }

  /** Calls made one after another until one raises: the log then, and whether none did. */
  function Attempt<H>(fails: nat -> bool, log: seq<Call<H>>, calls: seq<Call<H>>): (seq<Call<H>>, bool)
    decreases |calls|
  {
    if calls == [] then (log, true)
    else if fails(|log|) then (log + [calls[0]], false)
    else Attempt(fails, log + [calls[0]], calls[1..])
  }

  /** Which of these calls, made in spite of failures, raise; the first is logged at `place`. */
  function Failing<H>(fails: nat -> bool, place: nat, calls: seq<Call<H>>): seq<Call<H>>
    decreases |calls|
  {
    if calls == [] then []
    else (if fails(place) then [calls[0]] else []) + Failing(fails, place + 1, calls[1..])
  }

  /** The instances whose given operation a log shows, in order. */
  function Of<H>(operation: Operation, log: seq<Call<H>>): seq<H> {
    if log == [] then []
    else
      var last := log[|log| - 1];
      Of(operation, log[..|log| - 1]) + if last.operation == operation then [last.hardware] else []
  }

  // ---------------------------------------------------------------------------------------------
  // The operations of the runtime.

  function StoppedAll<H>(fails: nat -> bool, m: Machine<H>): (Machine<H>, Outcome<H>) {
    var calls := Stops(m.active);
    var failures := Failing(fails, |m.log|, calls);
    (m.(state := if failures != [] || m.state.Failed? then Failed else Stopped, active := [], log := m.log + calls),
     if failures == [] then Done else Raised(failures))
  }

  function Planned<H>(m: Machine<H>): seq<Call<H>> {
    Each(Validate, m.hardware) + Startups(m.hardware)
  }

  function StartedAll<H>(fails: nat -> bool, m: Machine<H>): (Machine<H>, Outcome<H>) {
    if !m.state.New? then (m, Refused)
    else
      var (log, ok) := Attempt(fails, m.log, Planned(m));
      if ok then (m.(state := Running, active := m.hardware, log := log), Done)
      else
        var rolledBack := StoppedAll(fails, m.(state := Failed, active := Of(Start, log), log := log));
        (rolledBack.0, Raised(if rolledBack.1.Raised? then rolledBack.1.failures else []))
  }

  function HealthChecked<H>(fails: nat -> bool, m: Machine<H>): (Machine<H>, Outcome<H>) {
    if !m.state.Running? then (m, Refused)
    else
      var (log, ok) := Attempt(fails, m.log, Each(CheckHealth, m.active));
      if ok then (m.(log := log), Done) else (m.(state := Failed, log := log), Raised([]))
  }

  function ResetAll<H>(fails: nat -> bool, m: Machine<H>): (Machine<H>, Outcome<H>) {
    if !m.state.Running? then (m, Refused)
    else
      var calls := Each(Reset, m.active);
      var failures := Failing(fails, |m.log|, calls);
      if failures == [] then (m.(log := m.log + calls), Done)
      else (m.(state := Failed, log := m.log + calls), Raised(failures))
  }

  function Diagnosed<H>(m: Machine<H>): Machine<H> {
    m.(log := m.log + Each(Diagnose, m.active))
  }

  // ---------------------------------------------------------------------------------------------
  // Series taken apart.

  lemma Reassociate<T>(a: seq<T>, b: seq<T>, c: seq<T>)
    ensures a + (b + c) == a + b + c
  {
  }

  lemma {:induction false} AttemptSplits<H>(fails: nat -> bool, log: seq<Call<H>>, a: seq<Call<H>>, b: seq<Call<H>>)
    ensures var (then_, ok) := Attempt(fails, log, a);
      Attempt(fails, log, a + b) == if ok then Attempt(fails, then_, b) else (then_, false)
    decreases |a|
  {
    if a == [] {
      assert a + b == b;
    } else {
      assert (a + b)[1..] == a[1..] + b;
      if !fails(|log|) {
        AttemptSplits(fails, log + [a[0]], a[1..], b);
      }
    }
  }

  lemma {:induction false} FailingSplits<H>(fails: nat -> bool, place: nat, a: seq<Call<H>>, b: seq<Call<H>>)
    ensures Failing(fails, place, a + b) == Failing(fails, place, a) + Failing(fails, place + |a|, b)
    decreases |a|
  {
    if a == [] {
      assert a + b == b;
    } else {
      var first := if fails(place) then [a[0]] else [];
      assert (a + b)[1..] == a[1..] + b;
      FailingSplits(fails, place + 1, a[1..], b);
      Reassociate(first, Failing(fails, place + 1, a[1..]), Failing(fails, place + |a|, b));
    }
  }

  lemma FailingMore<H>(fails: nat -> bool, place: nat, calls: seq<Call<H>>, call: Call<H>)
    ensures Failing(fails, place, calls + [call]) ==
      Failing(fails, place, calls) + if fails(place + |calls|) then [call] else []
  {
    FailingSplits(fails, place, calls, [call]);
    assert [call][1..] == [];
  }

  /** The last instance comes off the end and its stop goes to the end. */
  lemma OneStop<H>(done: seq<Call<H>>, active: seq<H>)
    requires active != []
    ensures done + Stops(active) == done + [Call(Stop, active[|active| - 1])] + Stops(active[..|active| - 1])
  {
    Reassociate(done, [Call(Stop, active[|active| - 1])], Stops(active[..|active| - 1]));
  }

  lemma {:induction false} OfSplits<H>(operation: Operation, a: seq<Call<H>>, b: seq<Call<H>>)
    ensures Of(operation, a + b) == Of(operation, a) + Of(operation, b)
    decreases |b|
  {
    if b == [] {
      assert a + b == a;
    } else {
      assert (a + b)[..|a + b| - 1] == a + b[..|b| - 1];
      OfSplits(operation, a, b[..|b| - 1]);
    }
  }

  // ---------------------------------------------------------------------------------------------

  lemma AttemptMore<H>(fails: nat -> bool, log: seq<Call<H>>, calls: seq<Call<H>>, call: Call<H>)
    requires Attempt(fails, log, calls).1
    ensures var so := Attempt(fails, log, calls).0;
      Attempt(fails, log, calls + [call]) == (so + [call], !fails(|so|))
  {
    AttemptSplits(fails, log, calls, [call]);
    assert [call][1..] == [];
  }

  lemma OneMore<H>(operation: Operation, hardware: seq<H>, i: nat)
    requires i < |hardware|
    ensures Each(operation, hardware[..i + 1]) == Each(operation, hardware[..i]) + [Call(operation, hardware[i])]
  {
    assert hardware[..i + 1][..i] == hardware[..i];
  }

  lemma OneMoreStartup<H>(hardware: seq<H>, i: nat)
    requires i < |hardware|
    ensures Startups(hardware[..i + 1]) ==
      Startups(hardware[..i]) + [Call(Start, hardware[i]), Call(CheckHealth, hardware[i])]
  {
    assert hardware[..i + 1][..i] == hardware[..i];
  }

  /** What the rest of a series adds to an attempt that has failed: nothing. */
  lemma AttemptOver<H>(fails: nat -> bool, log: seq<Call<H>>, calls: seq<Call<H>>, more: seq<Call<H>>)
    requires !Attempt(fails, log, calls).1
    ensures Attempt(fails, log, calls + more) == Attempt(fails, log, calls)
  {
    AttemptSplits(fails, log, calls, more);
  }

  /** A series for all the instances begins with that for the first few. */
  lemma {:induction false} Beginning<H>(operation: Operation, hardware: seq<H>, i: nat)
    requires i <= |hardware|
    ensures Each(operation, hardware[..i]) <= Each(operation, hardware)
    ensures Startups(hardware[..i]) <= Startups(hardware)
    decreases |hardware| - i
  {
    if i < |hardware| {
      OneMore(operation, hardware, i);
      OneMoreStartup(hardware, i);
      Beginning(operation, hardware, i + 1);
    } else {
      assert hardware[..i] == hardware;
    }
  }

  /** So an attempt that failed on the first few has failed. */
  lemma FailedEarly<H>(fails: nat -> bool, log: seq<Call<H>>, calls: seq<Call<H>>, all: seq<Call<H>>)
    requires calls <= all && !Attempt(fails, log, calls).1
    ensures Attempt(fails, log, all) == Attempt(fails, log, calls)
  {
    AttemptOver(fails, log, calls, all[|calls|..]);
    assert calls + all[|calls|..] == all;
  }

  lemma AttemptPair<H>(fails: nat -> bool, log: seq<Call<H>>, a: Call<H>, b: Call<H>)
    ensures Attempt(fails, log, [a, b]) ==
      if fails(|log|) then (log + [a], false) else (log + [a] + [b], !fails(|log| + 1))
  {
    assert [a, b][1..] == [b] && [b][1..] == [];
    if !fails(|log|) {
      assert Attempt(fails, log, [a, b]) == Attempt(fails, log + [a], [b]);
      AttemptMore(fails, log + [a], [], b);
      assert [] + [b] == [b];
    }
  }

  /** Validation starts nothing. */
  lemma {:induction false} NoStarts<H>(fails: nat -> bool, log: seq<Call<H>>, calls: seq<Call<H>>, hardware: seq<H>)
    requires calls == Each(Validate, hardware)
    ensures Of(Start, Attempt(fails, log, calls).0) == Of(Start, log)
    decreases |hardware|
  {
    if hardware != [] {
      var less, last := hardware[..|hardware| - 1], hardware[|hardware| - 1];
      NoStarts(fails, log, Each(Validate, less), less);
      if Attempt(fails, log, Each(Validate, less)).1 {
        AttemptMore(fails, log, Each(Validate, less), Call(Validate, last));
      } else {
        AttemptOver(fails, log, Each(Validate, less), [Call(Validate, last)]);
      }
    }
  }

  class DeviceRuntime<H(==)> {
    const hardware: seq<H>
    const fails: nat -> bool
    var state: State
    var active: seq<H>
    var log: seq<Call<H>>

    function View(): Machine<H>
      reads this
    {
      Machine(hardware, state, active, log)
    }

    constructor (hardware: seq<H>, fails: nat -> bool)
      ensures this.hardware == hardware && this.fails == fails && View() == Machine(hardware, New, [], []) && View().Valid()
    {
      this.hardware, this.fails := hardware, fails;
      state, active, log := New, [], [];
    }

    method Make(operation: Operation, instance: H) returns (ok: bool)
      modifies this`log
      ensures log == old(log) + [Call(operation, instance)] && ok == !fails(|old(log)|)
    {
      ok := !fails(|log|);
      log := log + [Call(operation, instance)];
    }

    method StopAll() returns (outcome: Outcome<H>)
      modifies this`state, this`active, this`log
      ensures (View(), outcome) == StoppedAll(fails, old(View()))
      ensures View().Valid()
    {
      var failures: seq<Call<H>> := [];
      ghost var before, done, place := log, [], |log|;
      while active != []
        invariant state == old(state)
        invariant log == before + done
        invariant done + Stops(active) == Stops(old(active))
        invariant failures == Failing(fails, place, done)
        decreases |active|
      {
        var instance := active[|active| - 1];
        OneStop(done, active);
        FailingMore(fails, place, done, Call(Stop, instance));
        active := active[..|active| - 1];
        var ok := Make(Stop, instance);
        done := done + [Call(Stop, instance)];
        if !ok {
          failures := failures + [Call(Stop, instance)];
        }
      }
      assert done + [] == done;
      state := if failures != [] || state == Failed then Failed else Stopped;
      outcome := if failures != [] then Raised(failures) else Done;
    }

    /** Calls every instance in turn until one raises. */
    method AskEach(operation: Operation, instances: seq<H>) returns (ok: bool)
      modifies this`log
      ensures (log, ok) == Attempt(fails, old(log), Each(operation, instances))
    {
      var i := 0;
      while i < |instances|
        invariant 0 <= i <= |instances|
        invariant Attempt(fails, old(log), Each(operation, instances[..i])) == (log, true)
      {
        OneMore(operation, instances, i);
        AttemptMore(fails, old(log), Each(operation, instances[..i]), Call(operation, instances[i]));
        ok := Make(operation, instances[i]);
        i := i + 1;
        if !ok {
          Beginning(operation, instances, i);
          FailedEarly(fails, old(log), Each(operation, instances[..i]), Each(operation, instances));
          return;
        }
      }
      assert instances[..i] == instances;
      ok := true;
    }

    /** An instance counts as active from before its start is attempted. */
    method StartOne(instance: H) returns (ok: bool)
      requires active == Of(Start, log)
      modifies this`active, this`log
      ensures active == old(active) + [instance] == Of(Start, log)
      ensures (log, ok) == Attempt(fails, old(log), [Call(Start, instance), Call(CheckHealth, instance)])
    {
      active := active + [instance];
      AttemptPair(fails, log, Call(Start, instance), Call(CheckHealth, instance));
      ok := Make(Start, instance);
      if ok {
        ok := Make(CheckHealth, instance);
      }
    }

    method StartEach() returns (ok: bool)
      requires active == Of(Start, log) == []
      modifies this`active, this`log
      ensures (log, ok) == Attempt(fails, old(log), Startups(hardware))
      ensures active == Of(Start, log) && (ok ==> active == hardware)
    {
      var i := 0;
      while i < |hardware|
        invariant 0 <= i <= |hardware|
        invariant Attempt(fails, old(log), Startups(hardware[..i])) == (log, true)
        invariant active == Of(Start, log) == hardware[..i]
      {
        ghost var pair := [Call(Start, hardware[i]), Call(CheckHealth, hardware[i])];
        OneMoreStartup(hardware, i);
        AttemptSplits(fails, old(log), Startups(hardware[..i]), pair);
        ok := StartOne(hardware[i]);
        i := i + 1;
        if !ok {
          Beginning(Start, hardware, i);
          FailedEarly(fails, old(log), Startups(hardware[..i]), Startups(hardware));
          return;
        }
      }
      assert hardware[..i] == hardware;
      ok := true;
    }

    /** Validates every instance before any is started. */
    method Attempted() returns (ok: bool)
      requires log == [] && active == []
      modifies this`active, this`log
      ensures (log, ok) == Attempt(fails, [], Each(Validate, hardware) + Startups(hardware))
      ensures active == Of(Start, log) && (ok ==> active == hardware)
    {
      AttemptSplits(fails, [], Each(Validate, hardware), Startups(hardware));
      NoStarts(fails, [], Each(Validate, hardware), hardware);
      ok := AskEach(Validate, hardware);
      if ok {
        ok := StartEach();
      }
    }

    method StartAll() returns (outcome: Outcome<H>)
      requires View().Valid()
      modifies this
      ensures (View(), outcome) == StartedAll(fails, old(View()))
      ensures View().Valid()
    {
      if state != New {
        return Refused;
      }
      var ok := Attempted();
      if ok {
        state := Running;
        return Done;
      }
      state := Failed;
      var cleanup := StopAll();
      outcome := Raised(if cleanup.Raised? then cleanup.failures else []);
    }

    method CheckHealthAll() returns (outcome: Outcome<H>)
      requires View().Valid()
      modifies this`state, this`log
      ensures (View(), outcome) == HealthChecked(fails, old(View()))
      ensures View().Valid()
    {
      if state != Running {
        return Refused;
      }
      var ok := AskEach(CheckHealth, active);
      if ok {
        return Done;
      }
      state := Failed;
      outcome := Raised([]);
    }

    method ResetEach() returns (outcome: Outcome<H>)
      requires View().Valid()
      modifies this`state, this`log
      ensures (View(), outcome) == ResetAll(fails, old(View()))
      ensures View().Valid()
    {
      if state != Running {
        return Refused;
      }
      var failures: seq<Call<H>> := [];
      var i := 0;
      while i < |active|
        invariant 0 <= i <= |active| && active == old(active) && state == Running
        invariant log == old(log) + Each(Reset, active[..i])
        invariant failures == Failing(fails, |old(log)|, Each(Reset, active[..i]))
      {
        OneMore(Reset, active, i);
        FailingMore(fails, |old(log)|, Each(Reset, active[..i]), Call(Reset, active[i]));
        var ok := Make(Reset, active[i]);
        if !ok {
          failures := failures + [Call(Reset, active[i])];
        }
        i := i + 1;
      }
      assert active[..i] == active;
      if failures == [] {
        return Done;
      }
      state := Failed;
      outcome := Raised(failures);
    }

    /** A failing diagnosis is reported in place of its result, and nothing else happens. */
    method Diagnostics()
      requires View().Valid()
      modifies this`log
      ensures View() == Diagnosed(old(View()))
      ensures View().Valid()
    {
      var i := 0;
      while i < |active|
        invariant 0 <= i <= |active|
        invariant log == old(log) + Each(Diagnose, active[..i])
      {
        OneMore(Diagnose, active, i);
        var _ := Make(Diagnose, active[i]);
        i := i + 1;
      }
      assert active[..i] == active;
    }
  }
}
