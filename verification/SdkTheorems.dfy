/** What every run of the SDK host keeps, and what polling it does not change. */
module SdkTheorems {
  import opened Reals
  import opened Options
  import opened Axis
  import opened AxisTheorems
  import opened Sequences
  import opened SdkService

  // ---------------------------------------------------------------------------------------------
  // Runs.

  predicate InRange(code: int) {
    MIN_CODE < code < CODE_LIMIT
  }

  ghost predicate CodesInRange(sequences: Store<Function, int>) {
    forall f, i | f in sequences && 0 <= i < |sequences[f].values| :: InRange(sequences[f].values[i])
  }

  ghost predicate ServiceInvariant(m: Machine, s: Service) {
    && AxisInvariant(m, s.axis)
    && InBounds(s.sequences)
    && CodesInRange(s.sequences)
  }

  /** The host after a list of events, and what it answered to each. */
  datatype Trace = Trace(service: Service, replies: seq<Reply>)

  function RunService(m: Machine, s: Service, events: seq<Event>): Trace
    requires m.profile.Valid()
    decreases |events|
  {
    if events == [] then Trace(s, [])
    else
      var first := Step(m, s, events[0]);
      var rest := RunService(m, first.service, events[1..]);
      Trace(rest.service, [first.reply] + rest.replies)
  }

  lemma SyncedInvariant(m: Machine, s: Service, now: real)
    requires m.Valid() && ServiceInvariant(m, s)
    ensures ServiceInvariant(m, Synced(m, s, now))
  {
    AdvancedInvariant(m, s.axis, Max(0.0, now - s.last));
  }

  lemma ConsumedKeeps(sequences: Store<Function, int>, target: Function)
    requires InBounds(sequences) && CodesInRange(sequences)
    ensures InBounds(Consumed(sequences, target)) && CodesInRange(Consumed(sequences, target))
    ensures var value := Selected(sequences, target).value; value.Some? ==> InRange(value.value)
  {
  }

  lemma InvokedInvariant(m: Machine, s: Service, now: real, sdk: Sdk, f: Function, args: Args)
    requires m.Valid() && ServiceInvariant(m, s)
    ensures ServiceInvariant(m, Invoked(m, s, now, sdk, f, args).service)
    ensures var reply := Invoked(m, s, now, sdk, f, args).reply; reply.Returned? ==> InRange(reply.code)
  {
    SyncedInvariant(m, s, now);
    var t := Synced(m, s, now);
    ExecutedInvariant(m, t.axis, f, args);
    ConsumedKeeps(t.sequences, f);
  }

  lemma ConfiguredKeeps(sequences: Store<Function, int>, target: Function, values: seq<Value>)
    requires InBounds(sequences) && CodesInRange(sequences) && ValidReturns(Some(values))
    ensures var after := Configured(sequences, target, Codes(values)); InBounds(after) && CodesInRange(after)
  {
    var codes := Codes(values);
    forall i | 0 <= i < |codes| ensures InRange(codes[i]) {
      assert values[i] in values;
    }
  }

  lemma HandledInvariant(m: Machine, s: Service, later: real, request: Request)
    requires m.Valid() && ServiceInvariant(m, s)
    ensures ServiceInvariant(m, Handled(m, s, later, request).service)
    ensures var reply := Handled(m, s, later, request).reply; reply.Returned? ==> InRange(reply.code)
  {
    match request
    case Call(sdk, f, args) => InvokedInvariant(m, s, later, if sdk.NoSdk? then Rotary else sdk, f, args);
    case InjectFault(name, active) => FaultedInvariant(m, s.axis, name, active);
    case SetSequence(target, values) =>
      if target.Some? && !target.value.OtherFunction? && ValidReturns(values) {
        ConfiguredKeeps(s.sequences, target.value, values.value);
      }
    case Restart(_) => InitialInvariant(m);
    case _ =>
  }

  lemma StepKeepsInvariant(m: Machine, s: Service, e: Event)
    requires m.Valid() && ServiceInvariant(m, s)
    ensures ServiceInvariant(m, Step(m, s, e).service)
    ensures var reply := Step(m, s, e).reply; reply.Returned? ==> InRange(reply.code)
  {
    match e
    case Tick(now) => SyncedInvariant(m, s, now);
    case Invoke(now, sdk, f, args) => InvokedInvariant(m, s, now, sdk, f, args);
    case Dispatch(now, later, request) =>
      SyncedInvariant(m, s, now);
      HandledInvariant(m, Synced(m, s, now), later, request);
    case LoopFailed =>
    case NativeError =>
  }

  /** In every run from start-up the axis keeps its invariant and no call returns a code that does not
      fit the wire or that is reserved for communication failures. */
  lemma {:induction false} EveryRunKeepsInvariant(m: Machine, s: Service, events: seq<Event>)
    requires m.Valid() && ServiceInvariant(m, s)
    ensures ServiceInvariant(m, RunService(m, s, events).service)
    ensures forall reply | reply in RunService(m, s, events).replies :: reply.Returned? ==> InRange(reply.code)
    decreases |events|
  {
    if events != [] {
      StepKeepsInvariant(m, s, events[0]);
      EveryRunKeepsInvariant(m, Step(m, s, events[0]).service, events[1..]);
    }
  }

  /** What one recognised call on a usable host does to the axis: it answers 0 exactly when the
      command was valid, was not overridden by a failure, and ran; otherwise it has only let time
      pass.  A success cannot be injected over a failed validation. */
  lemma CallPolicy(m: Machine, s: Service, now: real, sdk: Sdk, f: Function, args: Args)
    requires m.Valid() && ValidTarget(sdk, f) && args.Dict? && !s.failed
    ensures var t := Synced(m, s, now);
      var out := Invoked(m, s, now, sdk, f, args);
      var injected := Selected(s.sequences, f).value;
      var executed := Validate(m, t.axis, f, args).Ok? && (injected.Some? ==> injected.value == 0);
      && out.reply == Returned(out.reply.code, SnapshotOf(out.service.axis))
      && (out.reply.code == 0 <==> executed)
      && out.service.axis == (if executed then Executed(m, t.axis, f, args) else t.axis)
      && (injected.Some? && injected.value != 0 ==> out.reply.code == injected.value)
      && (injected.None? || injected.value == 0 ==> out.reply.code == Validate(m, t.axis, f, args).Code())
  {
  }

  /** What it does to the sequences: it takes exactly one item of its own function's, none of any other. */
  lemma CallTakesOne(m: Machine, s: Service, now: real, sdk: Sdk, f: Function, args: Args, g: Function)
    requires m.Valid() && ValidTarget(sdk, f) && args.Dict? && !s.failed && InBounds(s.sequences) && f != g
    ensures var after := Invoked(m, s, now, sdk, f, args).service.sequences;
      && InBounds(after)
      && Lookup(after, f).calls == Lookup(s.sequences, f).calls + 1
      && Pending(after, f) == (if Pending(s.sequences, f) == [] then [] else Pending(s.sequences, f)[1..])
      && Lookup(after, g) == Lookup(s.sequences, g)
  {
    TakeDequeues(s.sequences, f, g);
  }

  // ---------------------------------------------------------------------------------------------
  // Polling changes nothing.

  /** Events that only look, or only let the background loop run. */
  predicate IsPoll(e: Event) {
    || e.Tick?
    || (e.Dispatch? && (e.request.Ping? || e.request.Health? || e.request.Diagnostics?
                        || e.request.GetSnapshot? || e.request.GetSequences? || e.request.UnknownOperation?))
  }

  function Commands(events: seq<Event>): seq<Event> {
    if events == [] then []
    else (if IsPoll(events[0]) then [] else [events[0]]) + Commands(events[1..])
  }

  /** The answers to the commands among the events. */
  function CommandReplies(m: Machine, s: Service, events: seq<Event>): seq<Reply>
    requires m.profile.Valid()
    decreases |events|
  {
    if events == [] then []
    else
      var first := Step(m, s, events[0]);
      (if IsPoll(events[0]) then [] else [first.reply]) + CommandReplies(m, first.service, events[1..])
  }

  function FirstReading(last: real, e: Event): real {
    match e
    case Tick(now) => now
    case Invoke(now, _, _, _) => now
    case Dispatch(now, _, _) => now
    case _ => last
  }

  function LastReading(last: real, e: Event): real {
    match e
    case Dispatch(_, later, _) => later
    case _ => FirstReading(last, e)
  }

  /** The clock never goes back: the readings of `events` follow `last` in order. */
  predicate Monotone(last: real, events: seq<Event>)
    decreases |events|
  {
    events == [] || (last <= FirstReading(last, events[0]) <= LastReading(last, events[0])
                     && Monotone(LastReading(last, events[0]), events[1..]))
  }

  /** `s` is `t` brought up to a later time: the same host, synchronised more often. */
  ghost predicate AheadOf(m: Machine, s: Service, t: Service) {
    && AxisInvariant(m, s.axis) && AxisInvariant(m, t.axis)
    && t.last <= s.last
    && Settled(s.axis) == Settled(Advanced(m, t.axis, s.last - t.last))
    && s.sequences == t.sequences && s.failed == t.failed && s.nativeErrors == t.nativeErrors
  }

  lemma AheadOfItself(m: Machine, s: Service)
    requires m.Valid() && AxisInvariant(m, s.axis)
    ensures AheadOf(m, s, s)
  {
    AdvanceByNothing(m, s.axis);
  }

  lemma SyncIsAdvance(m: Machine, s: Service, now: real)
    requires s.last <= now
    ensures Synced(m, s, now).axis == Advanced(m, s.axis, now - s.last)
  {
  }

  lemma SyncedAxes(m: Machine, s: Service, t: Service, now: real)
    requires t.last <= s.last <= now
    requires Settled(s.axis) == Settled(Advanced(m, t.axis, s.last - t.last))
    ensures Settled(Synced(m, s, now).axis) == Settled(Advanced(m, t.axis, now - t.last))
    ensures Synced(m, t, now).axis == Advanced(m, t.axis, now - t.last)
  {
    var x, y := s.last - t.last, now - s.last;
    assert x + y == now - t.last;
    SyncIsAdvance(m, s, now);
    SyncIsAdvance(m, t, now);
    AdvanceCatchesUp(m, s.axis, t.axis, x, y);
  }

  /** Synchronising again, now or later, keeps the host ahead. */
  lemma SyncStaysAhead(m: Machine, s: Service, t: Service, now: real)
    requires m.Valid() && AheadOf(m, s, t) && s.last <= now
    ensures AheadOf(m, Synced(m, s, now), t)
  {
    AdvancedInvariant(m, s.axis, Max(0.0, now - s.last));
    SyncedAxes(m, s, t, now);
  }

  /** Two hosts alike in everything but the stopwatch of a finished motion. */
  ghost predicate Alike(m: Machine, s: Service, t: Service) {
    && AxisInvariant(m, s.axis) && AxisInvariant(m, t.axis)
    && Settled(s.axis) == Settled(t.axis)
    && s.(axis := t.axis) == t
  }

  lemma SyncCatchesUp(m: Machine, s: Service, t: Service, now: real)
    requires m.Valid() && AheadOf(m, s, t) && s.last <= now
    ensures Alike(m, Synced(m, s, now), Synced(m, t, now))
  {
    SyncedAxes(m, s, t, now);
    AdvancedInvariant(m, s.axis, Max(0.0, now - s.last));
    AdvancedInvariant(m, t.axis, Max(0.0, now - t.last));
  }

  lemma AlikeIsAhead(m: Machine, s: Service, t: Service)
    requires m.Valid() && Alike(m, s, t)
    ensures AheadOf(m, s, t)
  {
    AdvanceByNothing(m, t.axis);
  }

  lemma CalledAlike(m: Machine, s: Service, t: Service, f: Function, args: Args)
    requires m.Valid() && Alike(m, s, t)
    ensures Alike(m, Called(m, s, f, args).service, Called(m, t, f, args).service)
    ensures Called(m, s, f, args).reply == Called(m, t, f, args).reply
  {
    SettledExecute(m, s.axis, t.axis, f, args);
    ExecutedInvariant(m, s.axis, f, args);
    ExecutedInvariant(m, t.axis, f, args);
  }

  lemma InvokedTracks(m: Machine, s: Service, t: Service, now: real, sdk: Sdk, f: Function, args: Args)
    requires m.Valid() && AheadOf(m, s, t) && s.last <= now
    ensures AheadOf(m, Invoked(m, s, now, sdk, f, args).service, Invoked(m, t, now, sdk, f, args).service)
    ensures Invoked(m, s, now, sdk, f, args).reply == Invoked(m, t, now, sdk, f, args).reply
    ensures Invoked(m, s, now, sdk, f, args).service.last <= now
  {
    if ValidTarget(sdk, f) && args.Dict? && !s.failed {
      var s', t' := Synced(m, s, now), Synced(m, t, now);
      SyncCatchesUp(m, s, t, now);
      CalledAlike(m, s', t', f, args);
      AlikeIsAhead(m, Called(m, s', f, args).service, Called(m, t', f, args).service);
    }
  }

  lemma FaultTracks(m: Machine, s: Service, t: Service, later: real, name: FaultName, active: Value)
    requires m.Valid() && Alike(m, s, t)
    ensures var request := InjectFault(name, active);
      && AheadOf(m, Handled(m, s, later, request).service, Handled(m, t, later, request).service)
      && Handled(m, s, later, request).reply == Handled(m, t, later, request).reply
  {
    var request := InjectFault(name, active);
    SettledFault(m, s.axis, t.axis, name, active);
    FaultedInvariant(m, s.axis, name, active);
    FaultedInvariant(m, t.axis, name, active);
    AlikeIsAhead(m, Handled(m, s, later, request).service, Handled(m, t, later, request).service);
  }

  lemma HandledTracks(m: Machine, s: Service, t: Service, later: real, request: Request)
    requires m.Valid() && Alike(m, s, t) && s.last <= later
    ensures AheadOf(m, Handled(m, s, later, request).service, Handled(m, t, later, request).service)
    ensures Handled(m, s, later, request).reply == Handled(m, t, later, request).reply
    ensures Handled(m, s, later, request).service.last <= later
  {
    AlikeIsAhead(m, s, t);
    match request
    case Call(sdk, f, args) => InvokedTracks(m, s, t, later, if sdk.NoSdk? then Rotary else sdk, f, args);
    case InjectFault(name, active) => FaultTracks(m, s, t, later, name, active);
    case SetSequence(_, _) =>
      AlikeIsAhead(m, Handled(m, s, later, request).service, Handled(m, t, later, request).service);
    case Restart(_) =>
      InitialInvariant(m);
      AheadOfItself(m, Handled(m, s, later, request).service);
    case _ =>
  }

  lemma PollTracks(m: Machine, s: Service, t: Service, e: Event)
    requires m.Valid() && AheadOf(m, s, t) && IsPoll(e)
    requires s.last <= FirstReading(s.last, e) <= LastReading(s.last, e)
    ensures AheadOf(m, Step(m, s, e).service, t)
    ensures Step(m, s, e).service.last <= LastReading(s.last, e)
  {
    SyncStaysAhead(m, s, t, FirstReading(s.last, e));
  }

  lemma CommandTracks(m: Machine, s: Service, t: Service, e: Event)
    requires m.Valid() && AheadOf(m, s, t) && !IsPoll(e)
    requires s.last <= FirstReading(s.last, e) <= LastReading(s.last, e)
    ensures AheadOf(m, Step(m, s, e).service, Step(m, t, e).service)
    ensures Step(m, s, e).reply == Step(m, t, e).reply
    ensures Step(m, s, e).service.last <= LastReading(s.last, e)
  {
    match e
    case Invoke(now, sdk, f, args) => InvokedTracks(m, s, t, now, sdk, f, args);
    case Dispatch(now, later, request) =>
      if !s.nativeErrors && !s.failed {
        SyncCatchesUp(m, s, t, now);
        HandledTracks(m, Synced(m, s, now), Synced(m, t, now), later, request);
      }
    case _ =>
  }

  lemma {:induction false} PollsMayBeDropped(m: Machine, s: Service, t: Service, last: real, events: seq<Event>)
    requires m.Valid() && AheadOf(m, s, t) && s.last <= last && Monotone(last, events)
    ensures CommandReplies(m, s, events) == CommandReplies(m, t, Commands(events))
    ensures AheadOf(m, RunService(m, s, events).service, RunService(m, t, Commands(events)).service)
    decreases |events|
  {
    if events != [] {
      var e := events[0];
      var s' := Step(m, s, e).service;
      if IsPoll(e) {
        PollTracks(m, s, t, e);
        PollsMayBeDropped(m, s', t, LastReading(last, e), events[1..]);
        assert Commands(events) == Commands(events[1..]);
      } else {
        CommandTracks(m, s, t, e);
        PollsMayBeDropped(m, s', Step(m, t, e).service, LastReading(last, e), events[1..]);
        assert Commands(events) == [e] + Commands(events[1..]);
        assert Commands(events)[1..] == Commands(events[1..]);
      }
    }
  }

  /** Poll frequency does not matter.  Two runs with the same commands at the same times, under clocks
      that never go back, answer every command alike, and a snapshot taken of either at any later time
      is the same, however many ticks, snapshots and queries each had in between. */
  lemma PollFrequencyDoesNotMatter(m: Machine, start: real, events: seq<Event>, others: seq<Event>, now: real)
    requires m.Valid() && Monotone(start, events) && Monotone(start, others)
    requires Commands(events) == Commands(others)
    requires var s := Start(m, start);
      RunService(m, s, events).service.last <= now && RunService(m, s, others).service.last <= now
    ensures var s := Start(m, start);
      && CommandReplies(m, s, events) == CommandReplies(m, s, others)
      && var look := Dispatch(now, now, GetSnapshot);
         Step(m, RunService(m, s, events).service, look).reply
         == Step(m, RunService(m, s, others).service, look).reply
  {
    var s := Start(m, start);
    InitialInvariant(m);
    AheadOfItself(m, s);
    PollsMayBeDropped(m, s, s, start, events);
    PollsMayBeDropped(m, s, s, start, others);
    var reached := RunService(m, s, Commands(events)).service;
    SyncCatchesUp(m, RunService(m, s, events).service, reached, now);
    SyncCatchesUp(m, RunService(m, s, others).service, reached, now);
  }

  /** A call made over the control socket synchronises twice; the first time changes nothing. */
  lemma DispatchedCallIsACall(m: Machine, s: Service, now: real, later: real, f: Function, args: Args)
    requires m.Valid() && ServiceInvariant(m, s) && s.last <= now <= later
    requires !s.nativeErrors && !s.failed
    ensures var direct := Step(m, s, Invoke(later, Rotary, f, args));
      var call := Step(m, s, Dispatch(now, later, Call(NoSdk, f, args)));
      call.reply == direct.reply && (call.reply.Returned? ==> Alike(m, call.service, direct.service))
  {
    AheadOfItself(m, s);
    SyncStaysAhead(m, s, s, now);
    var t := Synced(m, s, now);
    InvokedTracks(m, t, s, later, Rotary, f, args);
    if ValidTarget(Rotary, f) && args.Dict? {
      SyncCatchesUp(m, t, s, later);
      CalledAlike(m, Synced(m, t, later), Synced(m, s, later), f, args);
    }
  }
}
