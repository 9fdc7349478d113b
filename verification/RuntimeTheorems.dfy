/** Whatever fails and in whatever order the runtime is used: validation comes first, every instance
    whose start was attempted is stopped once, in reverse order, and no runtime is started twice. */
module RuntimeTheorems {
  import opened Runtime

  datatype Request = StartRequest | HealthRequest | ResetRequest | DiagnosticsRequest | StopRequest

  function Apply<H>(fails: nat -> bool, m: Machine<H>, request: Request): Machine<H> {
    match request
    case StartRequest => StartedAll(fails, m).0
    case HealthRequest => HealthChecked(fails, m).0
    case ResetRequest => ResetAll(fails, m).0
    case DiagnosticsRequest => Diagnosed(m)
    case StopRequest => StoppedAll(fails, m).0
  }

  function Used<H>(fails: nat -> bool, m: Machine<H>, requests: seq<Request>): Machine<H>
    decreases |requests|
  {
    if requests == [] then m else Used(fails, Apply(fails, m, requests[0]), requests[1..])
  }

  function Reverse<H>(s: seq<H>): seq<H> {
    if s == [] then [] else [s[|s| - 1]] + Reverse(s[..|s| - 1])
  }

  // ---------------------------------------------------------------------------------------------
  // What a series of calls contains.

  lemma FrontAndLast<T>(s: seq<T>)
    requires s != []
    ensures s[..|s| - 1] + [s[|s| - 1]] == s
  {
  }

  lemma {:induction false} OfEach<H>(wanted: Operation, operation: Operation, hardware: seq<H>)
    ensures Of(wanted, Each(operation, hardware)) == if wanted == operation then hardware else []
    decreases |hardware|
  {
    if hardware != [] {
      OfEach(wanted, operation, hardware[..|hardware| - 1]);
      FrontAndLast(hardware);
    }
  }

  lemma OfTwo<H>(wanted: Operation, a: Call<H>, b: Call<H>)
    ensures Of(wanted, [a, b]) == Of(wanted, [a]) + Of(wanted, [b])
  {
    assert [a, b] == [a] + [b];
    OfSplits(wanted, [a], [b]);
  }

  lemma {:induction false} OfStartups<H>(hardware: seq<H>)
    ensures Of(Start, Startups(hardware)) == hardware
    ensures Of(Validate, Startups(hardware)) == [] && Of(Stop, Startups(hardware)) == []
    decreases |hardware|
  {
    if hardware != [] {
      var less, last := hardware[..|hardware| - 1], hardware[|hardware| - 1];
      var a, b := Call(Start, last), Call(CheckHealth, last);
      OfStartups(less);
      OfSplits(Start, Startups(less), [a, b]);
      OfSplits(Validate, Startups(less), [a, b]);
      OfSplits(Stop, Startups(less), [a, b]);
      OfTwo(Start, a, b);
      OfTwo(Validate, a, b);
      OfTwo(Stop, a, b);
      assert less + [last] == hardware;
    }
  }

  lemma {:induction false} OfStops<H>(wanted: Operation, hardware: seq<H>)
    ensures Of(wanted, Stops(hardware)) == if wanted.Stop? then Reverse(hardware) else []
    decreases |hardware|
  {
    if hardware != [] {
      var first := [Call(Stop, hardware[|hardware| - 1])];
      OfStops(wanted, hardware[..|hardware| - 1]);
      OfSplits(wanted, first, Stops(hardware[..|hardware| - 1]));
    }
  }

  lemma OfPrefix<H>(wanted: Operation, some: seq<Call<H>>, all: seq<Call<H>>)
    requires some <= all
    ensures Of(wanted, some) <= Of(wanted, all)
  {
    assert some + all[|some|..] == all;
    OfSplits(wanted, some, all[|some|..]);
  }

  /** A beginning of a series without such calls adds none. */
  lemma AddsNone<H>(wanted: Operation, log: seq<Call<H>>, more: seq<Call<H>>, all: seq<Call<H>>)
    requires more <= all && Of(wanted, all) == []
    ensures Of(wanted, log + more) == Of(wanted, log)
  {
    OfPrefix(wanted, more, all);
    OfSplits(wanted, log, more);
    assert Of(wanted, log) + [] == Of(wanted, log);
  }

  lemma {:induction false} AttemptIsAPrefix<H>(fails: nat -> bool, log: seq<Call<H>>, calls: seq<Call<H>>)
    ensures var (so, ok) := Attempt(fails, log, calls);
      log <= so <= log + calls && (ok ==> so == log + calls)
    decreases |calls|
  {
    if calls != [] && !fails(|log|) {
      AttemptIsAPrefix(fails, log + [calls[0]], calls[1..]);
      assert log + [calls[0]] + calls[1..] == log + calls;
    }
  }

  lemma {:induction false} ReverseAppend<H>(a: seq<H>, b: seq<H>)
    ensures Reverse(a + b) == Reverse(b) + Reverse(a)
    decreases |b|
  {
    if b == [] {
      assert a + b == a;
    } else {
      assert (a + b)[..|a + b| - 1] == a + b[..|b| - 1];
      ReverseAppend(a, b[..|b| - 1]);
    }
  }

  lemma {:induction false} ReverseTwice<H>(s: seq<H>)
    ensures Reverse(Reverse(s)) == s
  {
    if s != [] {
      var less, last := s[..|s| - 1], s[|s| - 1];
      ReverseTwice(less);
      ReverseAppend([last], Reverse(less));
      assert Reverse([last]) == [last] + Reverse([last][..0]);
      assert less + [last] == s;
    }
  }

  // ---------------------------------------------------------------------------------------------
  // The invariant.

  /** No instance is started before the last validation. */
  ghost predicate ValidationFirst<H>(log: seq<Call<H>>) {
    forall i, j | 0 <= i < j < |log| && log[i].operation.Start? :: !log[j].operation.Validate?
  }

  /** Every start attempted is either still active or undone, the latest first. */
  ghost predicate Accounted<H>(m: Machine<H>) {
    Of(Start, m.log) == m.active + Reverse(Of(Stop, m.log))
  }

  ghost predicate RuntimeInvariant<H>(m: Machine<H>) {
    && m.Valid()
    && Accounted(m)
    && ValidationFirst(m.log)
    && Of(Start, m.log) <= m.hardware
    && (Of(Start, m.log) != [] ==> Of(Validate, m.log) == m.hardware)
    && (m.state.Running? ==> m.active == m.hardware)
    && (m.state.Stopped? ==> m.active == [])
  }

  lemma {:induction false} OnlyValidations<H>(hardware: seq<H>, i: nat)
    requires i < |Each(Validate, hardware)|
    ensures Each(Validate, hardware)[i].operation.Validate?
    decreases |hardware|
  {
    if i < |Each(Validate, hardware)| - 1 {
      OnlyValidations(hardware[..|hardware| - 1], i);
    }
  }

  lemma {:induction false} OnlyStartups<H>(hardware: seq<H>, i: nat)
    requires i < |Startups(hardware)|
    ensures !Startups(hardware)[i].operation.Validate?
    decreases |hardware|
  {
    if i < |Startups(hardware)| - 2 {
      OnlyStartups(hardware[..|hardware| - 1], i);
    }
  }

  lemma PlanValidatesFirst<H>(m: Machine<H>)
    ensures ValidationFirst(Planned(m))
  {
    var v := Each(Validate, m.hardware);
    forall i, j | 0 <= i < j < |Planned(m)| && Planned(m)[i].operation.Start?
      ensures !Planned(m)[j].operation.Validate?
    {
      if i < |v| {
        OnlyValidations(m.hardware, i);
      } else {
        OnlyStartups(m.hardware, j - |v|);
      }
    }
  }

  lemma BeginningOfStartups<H>(hardware: seq<H>, more: seq<Call<H>>)
    requires more <= Startups(hardware)
    ensures var log := Each(Validate, hardware) + more;
      Of(Start, log) <= hardware && Of(Stop, log) == [] && Of(Validate, log) == hardware
  {
    var v, s := Each(Validate, hardware), Startups(hardware);
    OfStartups(hardware);
    OfEach(Start, Validate, hardware);
    OfEach(Stop, Validate, hardware);
    OfEach(Validate, Validate, hardware);
    AddsNone(Stop, v, more, s);
    AddsNone(Validate, v, more, s);
    OfPrefix(Start, more, s);
    OfSplits(Start, v, more);
  }

  lemma PrefixInOrder<H>(log: seq<Call<H>>, all: seq<Call<H>>)
    requires log <= all && ValidationFirst(all)
    ensures ValidationFirst(log)
  {
  }

  lemma PrefixOfTwo<T>(s: seq<T>, a: seq<T>, b: seq<T>)
    requires s <= a + b
    ensures |s| <= |a| ==> s <= a
    ensures |s| > |a| ==> s == a + s[|a|..] && s[|a|..] <= b
  {
  }

  lemma BeginningOfValidations<H>(hardware: seq<H>, log: seq<Call<H>>)
    requires log <= Each(Validate, hardware)
    ensures Of(Start, log) == [] && Of(Stop, log) == []
  {
    OfEach(Start, Validate, hardware);
    OfEach(Stop, Validate, hardware);
    OfPrefix(Start, log, Each(Validate, hardware));
    OfPrefix(Stop, log, Each(Validate, hardware));
  }

  /** What has been logged when the start ends or gives up: some of the plan, from its beginning. */
  lemma AnyBeginningIsInOrder<H>(m: Machine<H>, log: seq<Call<H>>)
    requires log <= Planned(m)
    ensures ValidationFirst(log) && Of(Start, log) <= m.hardware && Of(Stop, log) == []
    ensures Of(Start, log) != [] ==> Of(Validate, log) == m.hardware
  {
    var v, s := Each(Validate, m.hardware), Startups(m.hardware);
    PlanValidatesFirst(m);
    PrefixInOrder(log, Planned(m));
    PrefixOfTwo(log, v, s);
    if |log| <= |v| {
      BeginningOfValidations(m.hardware, log);
    } else {
      BeginningOfStartups(m.hardware, log[|v|..]);
    }
  }

  /** Appending calls that neither validate nor start keeps the order. */
  lemma StaysInOrder<H>(log: seq<Call<H>>, more: seq<Call<H>>)
    requires ValidationFirst(log)
    requires forall call | call in more :: !call.operation.Validate?
    ensures ValidationFirst(log + more)
  {
    forall i, j | 0 <= i < j < |log + more| && (log + more)[i].operation.Start?
      ensures !(log + more)[j].operation.Validate?
    {
      if j >= |log| {
        assert (log + more)[j] in more;
      }
    }
  }

  lemma {:induction false} StopsOnly<H>(hardware: seq<H>)
    ensures forall call | call in Stops(hardware) :: call.operation.Stop?
    decreases |hardware|
  {
    if hardware != [] {
      StopsOnly(hardware[..|hardware| - 1]);
    }
  }

  lemma {:induction false} EachOnly<H>(operation: Operation, hardware: seq<H>)
    ensures forall call | call in Each(operation, hardware) :: call.operation == operation
    decreases |hardware|
  {
    if hardware != [] {
      EachOnly(operation, hardware[..|hardware| - 1]);
    }
  }

  lemma NothingMoreThan<T>(s: seq<T>)
    ensures s + [] == s && [] + s == s
  {
  }

  /** The stops of what is active, added to a log. */
  lemma StopsAdded<H>(log: seq<Call<H>>, active: seq<H>)
    ensures Of(Start, log + Stops(active)) == Of(Start, log)
    ensures Of(Validate, log + Stops(active)) == Of(Validate, log)
    ensures Of(Stop, log + Stops(active)) == Of(Stop, log) + Reverse(active)
  {
    OfStops(Start, active);
    OfStops(Stop, active);
    OfStops(Validate, active);
    OfSplits(Start, log, Stops(active));
    OfSplits(Stop, log, Stops(active));
    OfSplits(Validate, log, Stops(active));
    NothingMoreThan(Of(Start, log));
    NothingMoreThan(Of(Validate, log));
  }

  lemma StopsInOrder<H>(log: seq<Call<H>>, active: seq<H>)
    requires ValidationFirst(log)
    ensures ValidationFirst(log + Stops(active))
  {
    StopsOnly(active);
    StaysInOrder(log, Stops(active));
  }

  lemma ReversedBack<H>(stopped: seq<H>, active: seq<H>)
    ensures Reverse(stopped + Reverse(active)) == active + Reverse(stopped)
  {
    ReverseAppend(stopped, Reverse(active));
    ReverseTwice(active);
  }

  lemma StopKeeps<H>(fails: nat -> bool, m: Machine<H>)
    requires m.Valid() || m.state.Failed?
    requires Accounted(m) && ValidationFirst(m.log) && Of(Start, m.log) <= m.hardware
    requires Of(Start, m.log) != [] ==> Of(Validate, m.log) == m.hardware
    ensures RuntimeInvariant(StoppedAll(fails, m).0)
  {
    StopsAdded(m.log, m.active);
    StopsInOrder(m.log, m.active);
    ReversedBack(Of(Stop, m.log), m.active);
    NothingMoreThan(Reverse(Of(Stop, m.log + Stops(m.active))));
  }

  lemma BeginningKeeps<H>(fails: nat -> bool, m: Machine<H>, log: seq<Call<H>>, ok: bool)
    requires ValidationFirst(log) && Of(Start, log) <= m.hardware && Of(Stop, log) == []
    requires Of(Start, log) != [] ==> Of(Validate, log) == m.hardware
    requires ok ==> Of(Start, log) == m.hardware
    ensures ok ==> RuntimeInvariant(m.(state := Running, active := m.hardware, log := log))
    ensures !ok ==> RuntimeInvariant(StoppedAll(fails, m.(state := Failed, active := Of(Start, log), log := log)).0)
  {
    assert Of(Start, log) + [] == Of(Start, log);
    if !ok {
      StopKeeps(fails, m.(state := Failed, active := Of(Start, log), log := log));
    }
  }

  lemma PlanStartsAll<H>(m: Machine<H>)
    ensures Of(Start, Planned(m)) == m.hardware
  {
    OfEach(Start, Validate, m.hardware);
    OfStartups(m.hardware);
    OfSplits(Start, Each(Validate, m.hardware), Startups(m.hardware));
  }

  lemma StartKeeps<H>(fails: nat -> bool, m: Machine<H>)
    requires RuntimeInvariant(m)
    ensures RuntimeInvariant(StartedAll(fails, m).0)
  {
    if m.state.New? {
      var (log, ok) := Attempt(fails, m.log, Planned(m));
      AttemptIsAPrefix(fails, m.log, Planned(m));
      assert m.log + Planned(m) == Planned(m);
      AnyBeginningIsInOrder(m, log);
      PlanStartsAll(m);
      BeginningKeeps(fails, m, log, ok);
    }
  }

  /** Calls that neither validate, start nor stop change nothing that matters. */
  lemma CallsAdded<H>(log: seq<Call<H>>, operation: Operation, active: seq<H>, more: seq<Call<H>>)
    requires more <= Each(operation, active) && !operation.Validate? && !operation.Start? && !operation.Stop?
    ensures Of(Start, log + more) == Of(Start, log)
    ensures Of(Stop, log + more) == Of(Stop, log)
    ensures Of(Validate, log + more) == Of(Validate, log)
  {
    OfEach(Start, operation, active);
    OfEach(Stop, operation, active);
    OfEach(Validate, operation, active);
    AddsNone(Start, log, more, Each(operation, active));
    AddsNone(Stop, log, more, Each(operation, active));
    AddsNone(Validate, log, more, Each(operation, active));
  }

  lemma CallsKeep<H>(m: Machine<H>, operation: Operation, more: seq<Call<H>>, state: State)
    requires RuntimeInvariant(m)
    requires more <= Each(operation, m.active) && !operation.Validate? && !operation.Start? && !operation.Stop?
    requires state == m.state || state == Failed
    requires m.state.New? ==> state == m.state
    ensures RuntimeInvariant(m.(log := m.log + more, state := state))
  {
    EachOnly(operation, m.active);
    StaysInOrder(m.log, more);
    CallsAdded(m.log, operation, m.active, more);
  }

  lemma PrefixIsAdded<T>(log: seq<T>, longer: seq<T>, calls: seq<T>)
    requires log <= longer <= log + calls
    ensures longer == log + longer[|log|..] && longer[|log|..] <= calls
  {
  }

  lemma HealthKeeps<H>(fails: nat -> bool, m: Machine<H>)
    requires RuntimeInvariant(m)
    ensures RuntimeInvariant(HealthChecked(fails, m).0)
  {
    if m.state.Running? {
      var calls := Each(CheckHealth, m.active);
      var (log, ok) := Attempt(fails, m.log, calls);
      AttemptIsAPrefix(fails, m.log, calls);
      PrefixIsAdded(m.log, log, calls);
      CallsKeep(m, CheckHealth, log[|m.log|..], if ok then m.state else Failed);
    }
  }

  lemma ResetKeeps<H>(fails: nat -> bool, m: Machine<H>)
    requires RuntimeInvariant(m)
    ensures RuntimeInvariant(ResetAll(fails, m).0)
  {
    if m.state.Running? {
      CallsKeep(m, Reset, Each(Reset, m.active), m.state);
      CallsKeep(m, Reset, Each(Reset, m.active), Failed);
    }
  }

  lemma ApplyKeeps<H>(fails: nat -> bool, m: Machine<H>, request: Request)
    requires RuntimeInvariant(m)
    ensures RuntimeInvariant(Apply(fails, m, request))
  {
    match request
    case StartRequest => StartKeeps(fails, m);
    case StopRequest => StopKeeps(fails, m);
    case HealthRequest => HealthKeeps(fails, m);
    case ResetRequest => ResetKeeps(fails, m);
    case DiagnosticsRequest => CallsKeep(m, Diagnose, Each(Diagnose, m.active), m.state);
  }

  lemma {:induction false} UsedKeeps<H>(fails: nat -> bool, m: Machine<H>, requests: seq<Request>)
    requires RuntimeInvariant(m)
    ensures RuntimeInvariant(Used(fails, m, requests))
    decreases |requests|
  {
    if requests != [] {
      ApplyKeeps(fails, m, requests[0]);
      UsedKeeps(fails, Apply(fails, m, requests[0]), requests[1..]);
    }
  }

  // ---------------------------------------------------------------------------------------------
  // The main results.

  function Fresh<H>(hardware: seq<H>): Machine<H> {
    Machine(hardware, New, [], [])
  }

  lemma EveryRunIsInOrder<H>(fails: nat -> bool, hardware: seq<H>, requests: seq<Request>)
    ensures RuntimeInvariant(Used(fails, Fresh(hardware), requests))
  {
    UsedKeeps(fails, Fresh(hardware), requests);
  }

  /** After a stop, and after a start that failed, every instance whose start was attempted has been
      stopped exactly once, the latest first, whichever stops failed. */
  lemma StopUndoesEveryStart<H>(fails: nat -> bool, hardware: seq<H>, requests: seq<Request>, last: Request)
    requires last.StopRequest? || (last.StartRequest? && Used(fails, Fresh(hardware), requests).state.New?)
    ensures var m := Apply(fails, Used(fails, Fresh(hardware), requests), last);
      m.state.Running? || (m.active == [] && Of(Stop, m.log) == Reverse(Of(Start, m.log)))
  {
    EveryRunIsInOrder(fails, hardware, requests);
    var before := Used(fails, Fresh(hardware), requests);
    var m := Apply(fails, before, last);
    ApplyKeeps(fails, before, last);
    assert [] + Reverse(Of(Stop, m.log)) == Reverse(Of(Stop, m.log));
    ReverseTwice(Of(Stop, m.log));
  }

  lemma {:induction false} AttemptSucceeds<H>(fails: nat -> bool, log: seq<Call<H>>, calls: seq<Call<H>>)
    ensures Attempt(fails, log, calls).1 <==> forall k: nat | |log| <= k < |log| + |calls| :: !fails(k)
    decreases |calls|
  {
    if calls != [] && !fails(|log|) {
      AttemptSucceeds(fails, log + [calls[0]], calls[1..]);
    }
  }

  /** A start ends in `Running` exactly when none of the calls it plans raises. */
  lemma StartSucceeds<H>(fails: nat -> bool, hardware: seq<H>)
    ensures var (m, outcome) := StartedAll(fails, Fresh(hardware));
      && (outcome.Done? <==> m.state.Running?)
      && (outcome.Done? <==> forall k: nat | k < |Planned(Fresh(hardware))| :: !fails(k))
      && (outcome.Done? ==> m.log == Planned(Fresh(hardware)))
  {
    var plan := Planned(Fresh(hardware));
    AttemptSucceeds(fails, [], plan);
    AttemptIsAPrefix(fails, [], plan);
    assert [] + plan == plan;
  }

  lemma {:induction false} StopsCount<H>(hardware: seq<H>)
    ensures |Stops(hardware)| == |hardware|
    decreases |hardware|
  {
    if hardware != [] {
      StopsCount(hardware[..|hardware| - 1]);
    }
  }

  lemma {:induction false} FailingIsEmpty<H>(fails: nat -> bool, place: nat, calls: seq<Call<H>>)
    ensures Failing(fails, place, calls) == [] <==> forall k: nat | place <= k < place + |calls| :: !fails(k)
    decreases |calls|
  {
    if calls != [] {
      FailingIsEmpty(fails, place + 1, calls[1..]);
    }
  }

  /** Stopping reports exactly the stops that raised, and stopping again calls nothing. */
  lemma StopAgainTouchesNothing<H>(fails: nat -> bool, m: Machine<H>)
    ensures var (once, outcome) := StoppedAll(fails, m);
      && (outcome.Done? <==> forall k: nat | |m.log| <= k < |m.log| + |m.active| :: !fails(k))
      && StoppedAll(fails, once) == (once, Done)
  {
    var (once, outcome) := StoppedAll(fails, m);
    StopsCount(m.active);
    FailingIsEmpty(fails, |m.log|, Stops(m.active));
    assert once.log + [] == once.log;
  }

  predicate Over<H>(m: Machine<H>) {
    m.state.Failed? || m.state.Stopped?
  }

  lemma OverStays<H>(fails: nat -> bool, m: Machine<H>, request: Request)
    requires Over(m)
    ensures var t := Apply(fails, m, request); Over(t) && Of(Start, t.log) == Of(Start, m.log)
  {
    match request
    case StopRequest =>
      OfStops(Start, m.active);
      AddsNone(Start, m.log, Stops(m.active), Stops(m.active));
    case DiagnosticsRequest =>
      OfEach(Start, Diagnose, m.active);
      AddsNone(Start, m.log, Each(Diagnose, m.active), Each(Diagnose, m.active));
    case _ =>
  }

  /** A runtime that failed or was stopped never runs again and starts nothing more. */
  lemma {:induction false} OverIsOver<H>(fails: nat -> bool, m: Machine<H>, requests: seq<Request>)
    requires Over(m)
    ensures var t := Used(fails, m, requests); Over(t) && Of(Start, t.log) == Of(Start, m.log)
    decreases |requests|
  {
    if requests != [] {
      OverStays(fails, m, requests[0]);
      OverIsOver(fails, Apply(fails, m, requests[0]), requests[1..]);
    }
  }

  // ---------------------------------------------------------------------------------------------
  // Health and reset.

  /** A health check of a running machine asks every instance until one raises; it leaves the machine
      running exactly if none did, and failed otherwise. */
  lemma HealthDecides<H>(fails: nat -> bool, m: Machine<H>)
    requires m.state.Running?
    ensures var (t, outcome) := HealthChecked(fails, m);
      && (outcome.Done? <==> forall k: nat | |m.log| <= k < |m.log| + |Each(CheckHealth, m.active)| :: !fails(k))
      && t.state == (if outcome.Done? then Running else Failed) && t.active == m.active
      && (outcome.Done? ==> t.log == m.log + Each(CheckHealth, m.active))
      && m.log <= t.log <= m.log + Each(CheckHealth, m.active)
  {
    AttemptSucceeds(fails, m.log, Each(CheckHealth, m.active));
    AttemptIsAPrefix(fails, m.log, Each(CheckHealth, m.active));
  }

  /** A reset of a running machine resets every instance whatever raises; it leaves the machine running
      exactly if none did, and reports those that did otherwise. */
  lemma ResetDecides<H>(fails: nat -> bool, m: Machine<H>)
    requires m.state.Running?
    ensures var (t, outcome) := ResetAll(fails, m);
      && t.log == m.log + Each(Reset, m.active) && t.active == m.active
      && (outcome.Done? <==> forall k: nat | |m.log| <= k < |m.log| + |Each(Reset, m.active)| :: !fails(k))
      && t.state == (if outcome.Done? then Running else Failed)
      && (!outcome.Done? ==> outcome == Raised(Failing(fails, |m.log|, Each(Reset, m.active))))
  {
    FailingIsEmpty(fails, |m.log|, Each(Reset, m.active));
  }

  /** Stopping a machine that has not failed leaves it stopped exactly if no stop raised. */
  lemma StopDecides<H>(fails: nat -> bool, m: Machine<H>)
    ensures var (t, outcome) := StoppedAll(fails, m);
      && t.active == [] && t.log == m.log + Stops(m.active)
      && t.state == (if outcome.Done? && !m.state.Failed? then Stopped else Failed)
      && (!outcome.Done? ==> outcome == Raised(Failing(fails, |m.log|, Stops(m.active))))
  {
  }

  /** A failed start reports the stops that raised while it was undone, and leaves the machine failed. */
  lemma FailedStartIsReported<H>(fails: nat -> bool, m: Machine<H>)
    requires m.state.New? && m.Valid() && !StartedAll(fails, m).1.Done?
    ensures var (t, outcome) := StartedAll(fails, m);
      var (log, ok) := Attempt(fails, [], Planned(m));
      && !ok && t.state == Failed && t.active == [] && t.log == log + Stops(Of(Start, log))
      && outcome == Raised(Failing(fails, |log|, Stops(Of(Start, log))))
  {
  }

  /** Only a new machine starts, only a running one is checked or reset. */
  lemma OtherStatesRefuse<H>(fails: nat -> bool, m: Machine<H>)
    ensures !m.state.New? ==> StartedAll(fails, m) == (m, Refused)
    ensures !m.state.Running? ==> HealthChecked(fails, m) == (m, Refused) && ResetAll(fails, m) == (m, Refused)
  {
  }

  // ---------------------------------------------------------------------------------------------
  // The order of calls.

  lemma {:induction false} EachInTurn<H>(operation: Operation, hardware: seq<H>, i: nat)
    requires i < |hardware|
    ensures |Each(operation, hardware)| == |hardware| && Each(operation, hardware)[i] == Call(operation, hardware[i])
    decreases |hardware|
  {
    var less := hardware[..|hardware| - 1];
    if i < |less| {
      EachInTurn(operation, less, i);
    } else if less != [] {
      EachInTurn(operation, less, 0);
    }
  }

  /** An instance is started and its health checked before the next is started. */
  lemma {:induction false} StartedThenChecked<H>(hardware: seq<H>, i: nat)
    requires i < |hardware|
    ensures |Startups(hardware)| == 2 * |hardware|
    ensures Startups(hardware)[2 * i] == Call(Start, hardware[i])
    ensures Startups(hardware)[2 * i + 1] == Call(CheckHealth, hardware[i])
    decreases |hardware|
  {
    var less := hardware[..|hardware| - 1];
    if i < |less| {
      StartedThenChecked(less, i);
    } else if less != [] {
      StartedThenChecked(less, 0);
    }
  }

  /** Stops go backwards. */
  lemma {:induction false} StoppedBackwards<H>(hardware: seq<H>, i: nat)
    requires i < |hardware|
    ensures |Stops(hardware)| == |hardware| && Stops(hardware)[i] == Call(Stop, hardware[|hardware| - 1 - i])
    decreases |hardware|
  {
    var less := hardware[..|hardware| - 1];
    if i > 0 {
      StoppedBackwards(less, i - 1);
    } else if less != [] {
      StoppedBackwards(less, 0);
    }
  }

  /** A series stops at the first call that raises, and that call is the last one logged. */
  lemma {:induction false} AttemptStopsAtTheFirstFailure<H>(fails: nat -> bool, log: seq<Call<H>>, calls: seq<Call<H>>,
                                                            n: nat)
    requires n < |calls| && fails(|log| + n) && forall k: nat | |log| <= k < |log| + n :: !fails(k)
    ensures Attempt(fails, log, calls) == (log + calls[..n + 1], false)
    decreases |calls|
  {
    if n == 0 {
      assert calls[..1] == [calls[0]];
    } else {
      AttemptStopsAtTheFirstFailure(fails, log + [calls[0]], calls[1..], n - 1);
      assert log + [calls[0]] + calls[1..][..n] == log + calls[..n + 1];
    }
  }

  /** The call in this place of the series is the one, and it raised. */
  ghost predicate RaisedAt<H>(fails: nat -> bool, place: nat, calls: seq<Call<H>>, call: Call<H>, k: nat) {
    k < |calls| && calls[k] == call && fails(place + k)
  }

  lemma RaisedLater<H>(fails: nat -> bool, place: nat, calls: seq<Call<H>>, call: Call<H>, k: nat)
    requires calls != [] && k > 0
    ensures RaisedAt(fails, place, calls, call, k) <==> RaisedAt(fails, place + 1, calls[1..], call, k - 1)
  {
    assert place + k == place + 1 + (k - 1);
  }

  /** What is reported is what raised. */
  lemma {:induction false} FailingAreTheFailures<H>(fails: nat -> bool, place: nat, calls: seq<Call<H>>, call: Call<H>)
    ensures call in Failing(fails, place, calls) <==> exists k: nat :: RaisedAt(fails, place, calls, call, k)
    decreases |calls|
  {
    if calls != [] {
      FailingAreTheFailures(fails, place + 1, calls[1..], call);
      if call in Failing(fails, place, calls) {
        if call in Failing(fails, place + 1, calls[1..]) {
          var k: nat :| RaisedAt(fails, place + 1, calls[1..], call, k);
          RaisedLater(fails, place, calls, call, k + 1);
        } else {
          assert RaisedAt(fails, place, calls, call, 0);
        }
      }
      if k: nat :| RaisedAt(fails, place, calls, call, k) {
        if k > 0 {
          RaisedLater(fails, place, calls, call, k);
        }
      }
    }
  }

  /** The first health check that raises is the last one made. */
  lemma FailedCheckIsTheLast<H>(fails: nat -> bool, m: Machine<H>, n: nat)
    requires m.state.Running? && n < |m.active|
    requires fails(|m.log| + n) && forall k: nat | |m.log| <= k < |m.log| + n :: !fails(k)
    ensures var (t, outcome) := HealthChecked(fails, m);
      && t == m.(state := Failed, log := t.log) && outcome == Raised([])
      && |t.log| == |m.log| + n + 1 && m.log <= t.log
      && forall i | 0 <= i <= n :: t.log[|m.log| + i] == Call(CheckHealth, m.active[i])
  {
    var calls := Each(CheckHealth, m.active);
    EachInTurn(CheckHealth, m.active, n);
    AttemptStopsAtTheFirstFailure(fails, m.log, calls, n);
    forall i | 0 <= i <= n ensures calls[i] == Call(CheckHealth, m.active[i]) {
      EachInTurn(CheckHealth, m.active, i);
    }
  }

  /** Diagnostics ask every active instance, in every state, and change nothing. */
  lemma DiagnosticsAskEach<H>(m: Machine<H>, i: nat)
    requires i < |m.active|
    ensures var t := Diagnosed(m);
      && t.hardware == m.hardware && t.state == m.state && t.active == m.active
      && |t.log| == |m.log| + |m.active| && m.log <= t.log
      && t.log[|m.log| + i] == Call(Diagnose, m.active[i])
  {
    EachInTurn(Diagnose, m.active, i);
  }
}
