/** The SDK host as two simpler machines run side by side: the bare axis, driven by the commands that
    answered 0, and the sequences, driven by the calls that were recognised. */
module SdkHistories {
  import opened Reals
  import opened Axis
  import opened AxisTheorems
  import opened Sequences
  import opened SdkService
  import opened SdkTheorems

  // ---------------------------------------------------------------------------------------------
  // What reaches the axis.

  function Passed(s: Service, now: real): AxisEvent {
    Elapsed(Max(0.0, now - s.last))
  }

  /** A call that is answered lets time pass; only an answer of 0 means that the command ran. */
  function CallEvents(m: Machine, s: Service, now: real, sdk: Sdk, f: Function, args: Args): seq<AxisEvent>
    requires m.profile.Valid()
  {
    var reply := Invoked(m, s, now, sdk, f, args).reply;
    if !reply.Returned? then []
    else [Passed(s, now)] + if reply.code == 0 then [Commanded(f, args)] else []
  }

  function RequestEvents(m: Machine, s: Service, later: real, request: Request): seq<AxisEvent>
    requires m.profile.Valid()
  {
    match request
    case Call(sdk, f, args) => CallEvents(m, s, later, if sdk.NoSdk? then Rotary else sdk, f, args)
    case InjectFault(name, active) => [FaultSet(name, active)]
    case Restart(modelFails) => if modelFails then [] else [WasReset]
    case _ => []
  }

  function AxisEventsOf(m: Machine, s: Service, e: Event): seq<AxisEvent>
    requires m.profile.Valid()
  {
    match e
    case Tick(now) => [Passed(s, now)]
    case Invoke(now, sdk, f, args) => CallEvents(m, s, now, sdk, f, args)
    case Dispatch(now, later, request) =>
      if request.Ping? || request.Diagnostics? || request.Health? || s.nativeErrors || s.failed then []
      else [Passed(s, now)] + RequestEvents(m, Synced(m, s, now), later, request)
    case _ => []
  }

  function AxisHistory(m: Machine, s: Service, events: seq<Event>): seq<AxisEvent>
    requires m.profile.Valid()
    decreases |events|
  {
    if events == [] then []
    else AxisEventsOf(m, s, events[0]) + AxisHistory(m, Step(m, s, events[0]).service, events[1..])
  }

  lemma {:induction false} AxisRunAppends(m: Machine, s: State, a: seq<AxisEvent>, b: seq<AxisEvent>)
    requires m.profile.Valid()
    ensures AxisRun(m, s, a + b) == AxisRun(m, AxisRun(m, s, a), b)
    decreases |a|
  {
    if a == [] {
      assert a + b == b;
    } else {
      assert (a + b)[1..] == a[1..] + b;
      AxisRunAppends(m, AxisStep(m, s, a[0]), a[1..], b);
    }
  }

  lemma AxisRunOne(m: Machine, s: State, e: AxisEvent)
    requires m.profile.Valid()
    ensures AxisRun(m, s, [e]) == AxisStep(m, s, e)
  {
    assert [e][1..] == [];
  }

  lemma SyncRunsTheAxis(m: Machine, s: Service, now: real)
    requires m.profile.Valid()
    ensures AxisRun(m, s.axis, [Passed(s, now)]) == Synced(m, s, now).axis
  {
    AxisRunOne(m, s.axis, Passed(s, now));
  }

  lemma CallRunsTheAxis(m: Machine, s: Service, now: real, sdk: Sdk, f: Function, args: Args)
    requires m.profile.Valid()
    ensures AxisRun(m, s.axis, CallEvents(m, s, now, sdk, f, args)) == Invoked(m, s, now, sdk, f, args).service.axis
  {
    var out := Invoked(m, s, now, sdk, f, args);
    if out.reply.Returned? {
      var t := Synced(m, s, now);
      SyncRunsTheAxis(m, s, now);
      if out.reply.code == 0 {
        AxisRunAppends(m, s.axis, [Passed(s, now)], [Commanded(f, args)]);
        AxisRunOne(m, t.axis, Commanded(f, args));
      } else {
        assert [Passed(s, now)] + [] == [Passed(s, now)];
      }
    }
  }

  lemma RequestRunsTheAxis(m: Machine, s: Service, later: real, request: Request)
    requires m.profile.Valid()
    ensures AxisRun(m, s.axis, RequestEvents(m, s, later, request)) == Handled(m, s, later, request).service.axis
  {
    match request
    case Call(sdk, f, args) => CallRunsTheAxis(m, s, later, if sdk.NoSdk? then Rotary else sdk, f, args);
    case InjectFault(name, active) => AxisRunOne(m, s.axis, FaultSet(name, active));
    case Restart(_) => AxisRunOne(m, s.axis, WasReset);
    case _ =>
  }

  lemma StepRunsTheAxis(m: Machine, s: Service, e: Event)
    requires m.profile.Valid()
    ensures AxisRun(m, s.axis, AxisEventsOf(m, s, e)) == Step(m, s, e).service.axis
  {
    match e
    case Tick(now) => SyncRunsTheAxis(m, s, now);
    case Invoke(now, sdk, f, args) => CallRunsTheAxis(m, s, now, sdk, f, args);
    case Dispatch(now, later, request) =>
      if !(request.Ping? || request.Diagnostics? || request.Health? || s.nativeErrors || s.failed) {
        var t := Synced(m, s, now);
        SyncRunsTheAxis(m, s, now);
        RequestRunsTheAxis(m, t, later, request);
        AxisRunAppends(m, s.axis, [Passed(s, now)], RequestEvents(m, t, later, request));
      }
    case _ =>
  }

  /** In every run the axis of the host is the bare axis under the time that passed, the commands that
      answered 0, the faults and the resets.  An injected failure, a refusal, a tick or a query adds
      nothing but time. */
  lemma {:induction false} HostRunsTheAxis(m: Machine, s: Service, events: seq<Event>)
    requires m.profile.Valid()
    ensures RunService(m, s, events).service.axis == AxisRun(m, s.axis, AxisHistory(m, s, events))
    decreases |events|
  {
    if events != [] {
      var next := Step(m, s, events[0]).service;
      StepRunsTheAxis(m, s, events[0]);
      HostRunsTheAxis(m, next, events[1..]);
      AxisRunAppends(m, s.axis, AxisEventsOf(m, s, events[0]), AxisHistory(m, next, events[1..]));
    }
  }

  lemma {:induction false} DurationAppends(a: seq<AxisEvent>, b: seq<AxisEvent>)
    ensures Duration(a + b) == Duration(a) + Duration(b)
    decreases |a|
  {
    if a == [] {
      assert a + b == b;
    } else {
      assert (a + b)[1..] == a[1..] + b;
      DurationAppends(a[1..], b);
    }
  }

  lemma DurationOfTwo(a: AxisEvent, b: AxisEvent)
    ensures Duration([a]) == Lasting(a) && Duration([a] + [b]) == Lasting(a) + Lasting(b)
  {
    assert [a][1..] == [] && [b][1..] == [];
    DurationAppends([a], [b]);
  }

  lemma CallLasts(m: Machine, s: Service, now: real, sdk: Sdk, f: Function, args: Args)
    requires m.profile.Valid() && s.last <= now
    ensures Duration(CallEvents(m, s, now, sdk, f, args)) == Invoked(m, s, now, sdk, f, args).service.last - s.last
    ensures s.last <= Invoked(m, s, now, sdk, f, args).service.last <= now
    ensures WasReset !in CallEvents(m, s, now, sdk, f, args)
  {
    DurationOfTwo(Passed(s, now), Commanded(f, args));
    assert [Passed(s, now)] + [] == [Passed(s, now)];
  }

  lemma RequestLasts(m: Machine, s: Service, later: real, request: Request)
    requires m.profile.Valid() && s.last <= later && request != Restart(false)
    ensures Duration(RequestEvents(m, s, later, request)) == Handled(m, s, later, request).service.last - s.last
    ensures s.last <= Handled(m, s, later, request).service.last <= later
    ensures WasReset !in RequestEvents(m, s, later, request)
  {
    match request
    case Call(sdk, f, args) => CallLasts(m, s, later, if sdk.NoSdk? then Rotary else sdk, f, args);
    case InjectFault(name, active) => DurationOfTwo(FaultSet(name, active), FaultSet(name, active));
    case _ =>
  }

  predicate Restarts(e: Event) {
    e.Dispatch? && e.request == Restart(false)
  }

  lemma StepLasts(m: Machine, s: Service, e: Event)
    requires m.profile.Valid() && !Restarts(e) && s.last <= FirstReading(s.last, e) <= LastReading(s.last, e)
    ensures Duration(AxisEventsOf(m, s, e)) == Step(m, s, e).service.last - s.last
    ensures s.last <= Step(m, s, e).service.last <= LastReading(s.last, e)
    ensures WasReset !in AxisEventsOf(m, s, e)
  {
    match e
    case Tick(now) => DurationOfTwo(Passed(s, now), Passed(s, now));
    case Invoke(now, sdk, f, args) => CallLasts(m, s, now, sdk, f, args);
    case Dispatch(now, later, request) =>
      var t := Synced(m, s, now);
      RequestLasts(m, t, later, request);
      DurationOfTwo(Passed(s, now), Passed(s, now));
      DurationAppends([Passed(s, now)], RequestEvents(m, t, later, request));
    case _ =>
  }

  lemma {:induction false} HistoryLasts(m: Machine, s: Service, last: real, events: seq<Event>)
    requires m.profile.Valid() && s.last <= last && Monotone(last, events) && forall e | e in events :: !Restarts(e)
    ensures Duration(AxisHistory(m, s, events)) == RunService(m, s, events).service.last - s.last
    ensures WasReset !in AxisHistory(m, s, events)
    decreases |events|
  {
    if events != [] {
      var next := Step(m, s, events[0]).service;
      StepLasts(m, s, events[0]);
      HistoryLasts(m, next, LastReading(last, events[0]), events[1..]);
      DurationAppends(AxisEventsOf(m, s, events[0]), AxisHistory(m, next, events[1..]));
    }
  }

  /** Between resets, under a clock that never goes back, the host never shows a jump: from any two of
      its readings the axis has moved no further than full speed allows. */
  lemma HostNeverJumps(m: Machine, s: Service, events: seq<Event>)
    requires m.Valid() && ServiceInvariant(m, s) && Monotone(s.last, events) && forall e | e in events :: !Restarts(e)
    ensures var t := RunService(m, s, events).service;
      Abs(t.axis.position - s.axis.position) <= Reach(m, t.last - s.last)
  {
    HostRunsTheAxis(m, s, events);
    HistoryLasts(m, s, s.last, events);
    PositionNeverJumps(m, s.axis, AxisHistory(m, s, events));
  }

  lemma {:induction false} TimeAlone(m: Machine, s: State, events: seq<AxisEvent>)
    requires m.Valid() && AxisInvariant(m, s) && forall e | e in events :: e.Elapsed? && e.dt >= 0.0
    ensures Duration(events) >= 0.0
    ensures Settled(AxisRun(m, s, events)) == Settled(Advanced(m, s, Duration(events)))
    decreases |events|
  {
    if events == [] {
      AdvanceByNothing(m, s);
    } else {
      AdvancedInvariant(m, s, events[0].dt);
      TimeAlone(m, Advanced(m, s, events[0].dt), events[1..]);
      AdvanceSplits(m, s, events[0].dt, Duration(events[1..]));
    }
  }

  predicate Forwards(events: seq<AxisEvent>) {
    forall e | e in events && e.Elapsed? :: e.dt >= 0.0
  }

  lemma StepForwards(m: Machine, s: Service, e: Event)
    requires m.profile.Valid()
    ensures Forwards(AxisEventsOf(m, s, e))
  {
  }

  lemma {:induction false} OnlyForwards(m: Machine, s: Service, events: seq<Event>)
    requires m.profile.Valid()
    ensures Forwards(AxisHistory(m, s, events))
    decreases |events|
  {
    if events != [] {
      StepForwards(m, s, events[0]);
      OnlyForwards(m, Step(m, s, events[0]).service, events[1..]);
    }
  }

  /** Calls that all fail, for whatever reason, leave the axis as one synchronisation at the end would:
      an injected failure withholds its command and does nothing else. */
  lemma FailedCallsOnlyPassTime(m: Machine, s: Service, events: seq<Event>)
    requires m.Valid() && ServiceInvariant(m, s) && Monotone(s.last, events) && forall e | e in events :: !Restarts(e)
    requires forall e | e in AxisHistory(m, s, events) :: e.Elapsed?
    ensures var t := RunService(m, s, events).service;
      Settled(t.axis) == Settled(Synced(m, s, t.last).axis)
  {
    HostRunsTheAxis(m, s, events);
    HistoryLasts(m, s, s.last, events);
    OnlyForwards(m, s, events);
    TimeAlone(m, s.axis, AxisHistory(m, s, events));
  }

  // ---------------------------------------------------------------------------------------------
  // What reaches the sequences.

  type SdkOp = Op<Function, int>

  /** A recognised call takes, an accepted configuration sets, a reset resets, and nothing else counts. */
  function CallOps(m: Machine, s: Service, now: real, sdk: Sdk, f: Function, args: Args): seq<SdkOp>
    requires m.profile.Valid()
  {
    if Invoked(m, s, now, sdk, f, args).reply.Returned? then [TakeOp(f)] else []
  }

  function RequestOps(m: Machine, s: Service, later: real, request: Request): seq<SdkOp>
    requires m.profile.Valid()
  {
    match request
    case Call(sdk, f, args) => CallOps(m, s, later, if sdk.NoSdk? then Rotary else sdk, f, args)
    case SetSequence(target, values) =>
      if target.Some? && !target.value.OtherFunction? && ValidReturns(values)
      then [SetOp(target.value, Codes(values.value))] else []
    case Restart(modelFails) => if modelFails then [] else [ResetOp]
    case _ => []
  }

  function OpsOf(m: Machine, s: Service, e: Event): seq<SdkOp>
    requires m.profile.Valid()
  {
    match e
    case Invoke(now, sdk, f, args) => CallOps(m, s, now, sdk, f, args)
    case Dispatch(now, later, request) =>
      if request.Ping? || request.Diagnostics? || request.Health? || s.nativeErrors || s.failed then []
      else RequestOps(m, Synced(m, s, now), later, request)
    case _ => []
  }

  function OpsHistory(m: Machine, s: Service, events: seq<Event>): seq<SdkOp>
    requires m.profile.Valid()
    decreases |events|
  {
    if events == [] then [] else OpsOf(m, s, events[0]) + OpsHistory(m, Step(m, s, events[0]).service, events[1..])
  }

  lemma CallRunsTheSequences(m: Machine, s: Service, now: real, sdk: Sdk, f: Function, args: Args)
    requires m.profile.Valid()
    ensures Invoked(m, s, now, sdk, f, args).service.sequences ==
      Applied(s.sequences, CallOps(m, s, now, sdk, f, args))
  {
  }

  lemma RequestRunsTheSequences(m: Machine, s: Service, later: real, request: Request)
    requires m.profile.Valid()
    ensures |RequestOps(m, s, later, request)| <= 1
    ensures Handled(m, s, later, request).service.sequences ==
      Applied(s.sequences, RequestOps(m, s, later, request))
  {
    match request
    case Call(sdk, f, args) => CallRunsTheSequences(m, s, later, if sdk.NoSdk? then Rotary else sdk, f, args);
    case _ =>
  }

  lemma StepRunsTheSequences(m: Machine, s: Service, e: Event)
    requires m.profile.Valid()
    ensures |OpsOf(m, s, e)| <= 1
    ensures Step(m, s, e).service.sequences == Applied(s.sequences, OpsOf(m, s, e))
  {
    match e
    case Invoke(now, sdk, f, args) => CallRunsTheSequences(m, s, now, sdk, f, args);
    case Dispatch(now, later, request) => RequestRunsTheSequences(m, Synced(m, s, now), later, request);
    case _ =>
  }

  lemma Regroup(a: seq<SdkOp>, b: seq<SdkOp>, c: seq<SdkOp>)
    ensures a + b + c == a + (b + c) && a + [] == a
  {
  }

  lemma {:induction false} RunKeepsHistory(m: Machine, s: Service, events: seq<Event>, before: seq<SdkOp>)
    requires m.profile.Valid() && s.sequences == After(before)
    ensures RunService(m, s, events).service.sequences == After(before + OpsHistory(m, s, events))
    decreases |events|
  {
    if events == [] {
      Regroup(before, [], []);
    } else {
      var next, ops := Step(m, s, events[0]).service, OpsOf(m, s, events[0]);
      StepRunsTheSequences(m, s, events[0]);
      AppliedIsAfter(before, ops);
      RunKeepsHistory(m, next, events[1..], before + ops);
      Regroup(before, ops, OpsHistory(m, next, events[1..]));
    }
  }

  /** In every run from start-up the sequences of the host are exactly the history of its recognised
      calls, accepted configurations and resets. */
  lemma HostRunsTheSequences(m: Machine, start: real, events: seq<Event>)
    requires m.profile.Valid()
    ensures var s := Start(m, start);
      RunService(m, s, events).service.sequences == After(OpsHistory(m, s, events))
  {
    RunKeepsHistory(m, Start(m, start), events, []);
    assert [] + OpsHistory(m, Start(m, start), events) == OpsHistory(m, Start(m, start), events);
  }

  /** So the code of a call is decided by counting: with n recognised calls of its function since the
      last configuration, it is item n of that configuration, unless that is 0 or there is none and
      validation decides. */
  lemma CallAnswersItsItem(m: Machine, start: real, events: seq<Event>, now: real, f: Function, args: Args)
    requires m.profile.Valid() && ValidTarget(Rotary, f) && args.Dict?
    requires !RunService(m, Start(m, start), events).service.failed
    ensures var s := RunService(m, Start(m, start), events).service;
      var ops := OpsHistory(m, Start(m, start), events);
      var n, items, reply := Uses(ops, f), Latest(ops, f), Invoked(m, s, now, Rotary, f, args).reply;
      && reply.Returned?
      && reply.code == if n < |items| && items[n] != 0 then items[n]
                       else Validate(m, Synced(m, s, now).axis, f, args).Code()
  {
    HostRunsTheSequences(m, start, events);
    TakeIsItsHistory(OpsHistory(m, Start(m, start), events), f);
  }

  lemma {:induction false} HistoryAppends(m: Machine, s: Service, a: seq<Event>, b: seq<Event>)
    requires m.profile.Valid()
    ensures RunService(m, s, a + b).service == RunService(m, RunService(m, s, a).service, b).service
    ensures OpsHistory(m, s, a + b) == OpsHistory(m, s, a) + OpsHistory(m, RunService(m, s, a).service, b)
    decreases |a|
  {
    if a == [] {
      assert a + b == b;
    } else {
      var next := Step(m, s, a[0]).service;
      assert (a + b)[1..] == a[1..] + b;
      HistoryAppends(m, next, a[1..], b);
      Regroup(OpsOf(m, s, a[0]), OpsHistory(m, next, a[1..]), OpsHistory(m, RunService(m, next, a[1..]).service, b));
    }
  }

  lemma OnlyRestartsReset(m: Machine, s: Service, e: Event)
    requires m.profile.Valid() && !Restarts(e)
    ensures ResetOp !in OpsOf(m, s, e)
  {
    if e.Dispatch? && e.request.Restart? {
      assert e.request == Restart(e.request.modelFails);
    }
  }

  lemma {:induction false} NoResets(m: Machine, s: Service, events: seq<Event>)
    requires m.profile.Valid() && forall e | e in events :: !Restarts(e)
    ensures ResetOp !in OpsHistory(m, s, events)
    decreases |events|
  {
    if events != [] {
      OnlyRestartsReset(m, s, events[0]);
      NoResets(m, Step(m, s, events[0]).service, events[1..]);
    }
  }

  /** The item, if any, that a call made after `events` is answered with. */
  function ItemFor(m: Machine, start: real, events: seq<Event>, f: Function): Selection<Function, int>
    requires m.profile.Valid()
  {
    Selected(RunService(m, Start(m, start), events).service.sequences, f)
  }

  /** No configured code answers two calls, and codes answer in order: of two recognised calls of a
      function with no reset between them, the later one is answered from a later configuration or a
      later place in the same. */
  lemma EachItemAnswersOneCall(m: Machine, start: real, before: seq<Event>, call: Event, between: seq<Event>, f: Function)
    requires m.profile.Valid()
    requires OpsOf(m, RunService(m, Start(m, start), before).service, call) == [TakeOp(f)]
    requires forall e | e in between :: !Restarts(e)
    ensures var first, second := ItemFor(m, start, before, f), ItemFor(m, start, before + ([call] + between), f);
      && first.call < second.call
      && (first.Overridden() && second.Overridden() ==>
            first.generation < second.generation
            || (first.generation == second.generation && first.index.value < second.index.value))
  {
    var s := RunService(m, Start(m, start), before).service;
    var t := Step(m, s, call).service;
    var ops, more := OpsHistory(m, Start(m, start), before), OpsHistory(m, t, between);
    HistoryAppends(m, Start(m, start), before, [call] + between);
    assert ([call] + between)[1..] == between;
    HostRunsTheSequences(m, start, before);
    HostRunsTheSequences(m, start, before + ([call] + between));
    NoResets(m, t, between);
    TwoTakes(ops, more, f);
  }
}
