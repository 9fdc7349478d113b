/** What the SDK host shows: every reported state over a run, and what a caller sees of its own commands. */
module SdkAnswers {
  import opened Reals
  import opened Options
  import opened Kinematics
  import opened Axis
  import opened AxisTheorems
  import opened AxisAnswers
  import opened SdkService
  import opened SdkTheorems

  // ---------------------------------------------------------------------------------------------
  // Every shown state makes sense.

  predicate Shows(reply: Reply) {
    reply.Returned? || reply.Observed? || reply.Diagnosed?
  }

  /** What any client can rely on in a reported state. */
  predicate MakesSense(m: Machine, shown: Snapshot) {
    && Within(m, shown.position) && Within(m, shown.target)
    && Abs(shown.velocity) <= m.profile.maxSpeed
    && (shown.busy <==> shown.phase != Idle)
    && (!shown.busy ==> shown.velocity == 0.0 && shown.position == shown.target)
    && (shown.busy ==> shown.enabled && shown.alarm == 0 && !shown.done)
    && (shown.phase == Moving ==> shown.homed)
    && (shown.done ==> shown.homed && shown.enabled && shown.alarm == 0)
    && shown.alarm in {0, 1, 2}
    && (shown.faults.positiveLimit || shown.faults.negativeLimit ==> shown.alarm != 0)
    && (shown.faults.stalled ==> shown.velocity == 0.0 && shown.phase != Stopping)
  }

  lemma SnapshotMakesSense(m: Machine, s: State)
    requires Consistent(m, s)
    ensures MakesSense(m, SnapshotOf(s))
  {
  }

  lemma StepMakesSense(m: Machine, s: Service, e: Event)
    requires m.Valid() && ServiceInvariant(m, s)
    ensures var reply := Step(m, s, e).reply; Shows(reply) ==> MakesSense(m, reply.state)
  {
    var out := Step(m, s, e);
    StepKeepsInvariant(m, s, e);
    SnapshotMakesSense(m, s.axis);
    SnapshotMakesSense(m, out.service.axis);
  }

  lemma {:induction false} RunMakesSense(m: Machine, s: Service, events: seq<Event>)
    requires m.Valid() && ServiceInvariant(m, s)
    ensures forall reply | reply in RunService(m, s, events).replies :: Shows(reply) ==> MakesSense(m, reply.state)
    decreases |events|
  {
    if events != [] {
      StepMakesSense(m, s, events[0]);
      StepKeepsInvariant(m, s, events[0]);
      RunMakesSense(m, Step(m, s, events[0]).service, events[1..]);
    }
  }

  /** In every run from start-up, every state that the host shows makes sense. */
  lemma EveryShownStateMakesSense(m: Machine, start: real, events: seq<Event>)
    requires m.Valid()
    ensures forall reply | reply in RunService(m, Start(m, start), events).replies ::
      Shows(reply) ==> MakesSense(m, reply.state)
  {
    InitialInvariant(m);
    RunMakesSense(m, Start(m, start), events);
  }

  // ---------------------------------------------------------------------------------------------
  // What a caller sees of its own commands.

  /** A move to `goal` as it shows `dt` after it began at `start`. */
  predicate ShowsMove(m: Machine, shown: Snapshot, start: real, goal: real, speed: real, phase: Phase, dt: real)
    requires m.profile.Valid() && speed > 0.0
  {
    var least := TimeAtSpeed(Abs(goal - start), speed);
    var most := least + RampAllowance(speed, m.profile.acceleration, m.profile.deceleration);
    && shown.target == goal && Between(start, shown.position, goal)
    && Towards(goal - start, shown.velocity) && Abs(shown.velocity) <= speed
    && (shown.busy ==> shown.phase == phase && !shown.done)
    && (dt < least ==> shown.busy)
    && (dt >= most ==> shown.done && !shown.busy && shown.homed && shown.velocity == 0.0 && shown.position == goal)
  }

  /** What a snapshot request shows at a time. */
  function Seen(m: Machine, s: Service, now: real): Snapshot
    requires m.profile.Valid()
  {
    SnapshotOf(Synced(m, s, now).axis)
  }

  lemma SeenIsAnswered(m: Machine, s: Service, now: real, later: real)
    requires m.profile.Valid() && !s.failed && !s.nativeErrors
    ensures Step(m, s, Dispatch(now, later, GetSnapshot)).reply == Observed(Seen(m, s, now))
  {
  }

  lemma CarriedIsSeen(m: Machine, s: Service, start: real, goal: real, speed: real, phase: Phase, now: real)
    requires m.profile.Valid() && speed > 0.0 && s.last <= now
    requires Carried(m, Advanced(m, s.axis, now - s.last), start, goal, speed, phase, now - s.last)
    ensures ShowsMove(m, Seen(m, s, now), start, goal, speed, phase, now - s.last)
  {
  }

  lemma CallRan(m: Machine, s: Service, now: real, f: Function, args: Args)
    requires m.Valid() && ServiceInvariant(m, s)
    requires Invoked(m, s, now, Rotary, f, args).reply.Returned? && Invoked(m, s, now, Rotary, f, args).reply.code == 0
    ensures var t := Synced(m, s, now);
      var out := Invoked(m, s, now, Rotary, f, args);
      && AxisInvariant(m, t.axis) && Validate(m, t.axis, f, args) == Ok
      && out.service.axis == Executed(m, t.axis, f, args) && out.service.last == now
      && out.service.failed == s.failed && out.service.nativeErrors == s.nativeErrors
      && out.reply.state.position == Seen(m, s, now).position
      && out.reply.state.faults == t.axis.faults
  {
    SyncedInvariant(m, s, now);
    ExecutedInvariant(m, Synced(m, s, now).axis, f, args);
  }

  /** Where a move command leads, seen from the position shown when it was given. */
  function Leads(f: Function, start: real, entries: map<Key, Value>): real
    requires (f.MoveAbsolute? || f.MoveRelative?) && GoodAngle(entries)
  {
    var angle := NumberIn(entries[AngleKey]);
    if f.MoveRelative? then start + angle else angle
  }

  lemma AcceptedMoveIsCarried(m: Machine, s: State, f: Function, entries: map<Key, Value>, dt: real)
    requires m.Valid() && AxisInvariant(m, s) && (f.MoveAbsolute? || f.MoveRelative?) && GoodMove(m, entries)
    requires Validate(m, s, f, Dict(entries)) == Ok && !s.faults.stalled && dt >= 0.0
    ensures Carried(m, Advanced(m, Executed(m, s, f, Dict(entries)), dt), s.position, Leads(f, s.position, entries),
                    Requested(m, entries), Moving, dt)
  {
    MovesAnswer(m, s, entries);
    if f.MoveAbsolute? {
      MoveAbsoluteArrives(m, s, entries, dt);
    } else {
      MoveRelativeArrives(m, s, entries, dt);
    }
  }

  lemma CarriedIsShown(m: Machine, s: Service, start: real, goal: real, speed: real, phase: Phase, now: real, later: real)
    requires m.profile.Valid() && speed > 0.0 && s.last <= now && !s.failed && !s.nativeErrors
    requires Carried(m, Advanced(m, s.axis, now - s.last), start, goal, speed, phase, now - s.last)
    ensures var shown := Step(m, s, Dispatch(now, later, GetSnapshot)).reply;
      shown.Observed? && ShowsMove(m, shown.state, start, goal, speed, phase, now - s.last)
  {
    CarriedIsSeen(m, s, start, goal, speed, phase, now);
    SeenIsAnswered(m, s, now, later);
  }

  /** A move that was answered 0 shows as that move from then on, until something else happens to the axis:
      the angle that was sent decides where it goes, the speed that was sent how long it takes. */
  lemma MoveIsShown(m: Machine, s: Service, now: real, f: Function, entries: map<Key, Value>, look: real, later: real)
    requires m.Valid() && ServiceInvariant(m, s) && !s.failed && !s.nativeErrors && s.last <= now <= look
    requires (f.MoveAbsolute? || f.MoveRelative?) && GoodMove(m, entries)
    requires var reply := Invoked(m, s, now, Rotary, f, Dict(entries)).reply;
      reply.code == 0 && !reply.state.faults.stalled
    ensures var start := Seen(m, s, now).position;
      var first := Invoked(m, s, now, Rotary, f, Dict(entries));
      var shown := Step(m, first.service, Dispatch(look, later, GetSnapshot)).reply;
      && first.reply.state.position == start
      && shown.Observed?
      && ShowsMove(m, shown.state, start, Leads(f, start, entries), Requested(m, entries), Moving, look - now)
  {
    var first := Invoked(m, s, now, Rotary, f, Dict(entries));
    var t := Synced(m, s, now);
    CallRan(m, s, now, f, Dict(entries));
    AcceptedMoveIsCarried(m, t.axis, f, entries, look - now);
    CarriedIsShown(m, first.service, t.axis.position, Leads(f, t.axis.position, entries), Requested(m, entries), Moving,
                   look, later);
  }

  /** The same of homing. */
  lemma HomingIsShown(m: Machine, s: Service, now: real, entries: map<Key, Value>, look: real, later: real)
    requires m.Valid() && ServiceInvariant(m, s) && !s.failed && !s.nativeErrors && s.last <= now <= look
    requires GoodHome(m, entries)
    requires var reply := Invoked(m, s, now, Rotary, Home, Dict(entries)).reply;
      reply.code == 0 && !reply.state.faults.stalled
    ensures var start := Seen(m, s, now).position;
      var first := Invoked(m, s, now, Rotary, Home, Dict(entries));
      var shown := Step(m, first.service, Dispatch(look, later, GetSnapshot)).reply;
      && shown.Observed? && (shown.state.homed <==> !shown.state.busy)
      && ShowsMove(m, shown.state, start, m.profile.home, Requested(m, entries), Homing, look - now)
  {
    var first := Invoked(m, s, now, Rotary, Home, Dict(entries));
    var t := Synced(m, s, now);
    CallRan(m, s, now, Home, Dict(entries));
    MovesAnswer(m, t.axis, entries);
    HomeArrives(m, t.axis, entries, look - now);
    CarriedIsSeen(m, first.service, t.axis.position, m.profile.home, Requested(m, entries), Homing, look);
    SeenIsAnswered(m, first.service, look, later);
  }

  /** Enabling and disabling show at once. */
  lemma SwitchIsShown(m: Machine, s: Service, now: real, f: Function, entries: map<Key, Value>)
    requires m.Valid() && ServiceInvariant(m, s) && (f.Enable? || f.Disable?)
    requires Invoked(m, s, now, Rotary, f, Dict(entries)).reply.Returned?
    requires Invoked(m, s, now, Rotary, f, Dict(entries)).reply.code == 0
    ensures var shown, before := Invoked(m, s, now, Rotary, f, Dict(entries)).reply.state, Seen(m, s, now);
      && (f.Enable? ==> shown == before.(enabled := true))
      && (f.Disable? ==>
            && !shown.enabled && !shown.homed && !shown.busy
            && shown.position == before.position && shown.target == before.position)
  {
    CallRan(m, s, now, f, Dict(entries));
  }

  /** Asking for the state or the position, and being refused, shows what a snapshot does. */
  lemma AskingShowsTheState(m: Machine, s: Service, now: real, f: Function, args: Args)
    requires m.Valid() && ServiceInvariant(m, s)
    requires Invoked(m, s, now, Rotary, f, args).reply.Returned?
    requires f.GetState? || f.GetPosition? || Invoked(m, s, now, Rotary, f, args).reply.code != 0
    ensures Invoked(m, s, now, Rotary, f, args).reply.state == Seen(m, s, now)
  {
  }

  /** A fault that was set or cleared shows under its own name, a limit also as its alarm, and the position
      does not move. */
  lemma FaultIsShown(m: Machine, s: Service, now: real, later: real, name: FaultName, active: bool)
    requires m.Valid() && ServiceInvariant(m, s) && !s.failed && !s.nativeErrors && !name.OtherFault?
    ensures var reply := Step(m, s, Dispatch(now, later, InjectFault(name, Boolean(active)))).reply;
      var before := Seen(m, s, now);
      && reply.Observed?
      && reply.state.faults.stalled == (if name.Stalled? then active else before.faults.stalled)
      && reply.state.faults.positiveLimit == (if name.PositiveLimit? then active else before.faults.positiveLimit)
      && reply.state.faults.negativeLimit == (if name.NegativeLimit? then active else before.faults.negativeLimit)
      && reply.state.position == before.position
      && (active && name.PositiveLimit? && !before.faults.positiveLimit ==> reply.state.alarm == 1)
      && (active && name.NegativeLimit? && !before.faults.negativeLimit ==> reply.state.alarm == 2)
      && (!active ==> reply.state.alarm == before.alarm)
  {
    var t := Synced(m, s, now);
    SyncedInvariant(m, s, now);
    FaultsAreTheirOwn(m, t.axis, name, active);
    FaultedInvariant(m, t.axis, name, Boolean(active));
    if active && !t.axis.faults.Active(name) && !name.Stalled? {
      FaultsEndMoves(m, t.axis, name);
    }
  }

  /** A fault that does not exist, or a value that is no Boolean, is refused and changes nothing. */
  lemma StrangeFaultsAreRefused(m: Machine, s: Service, now: real, later: real, name: FaultName, active: Value)
    requires m.Valid() && !s.failed && !s.nativeErrors && (name.OtherFault? || !active.Boolean?)
    ensures Step(m, s, Dispatch(now, later, InjectFault(name, active))) == Outcome(Synced(m, s, now), Refused)
  {
  }

  // ---------------------------------------------------------------------------------------------
  // What is refused.

  /** A call is refused outright, and not even counted, exactly if it names another SDK or no function of
      this one, or brings no dictionary of arguments. */
  lemma StrangeCallsAreRefused(m: Machine, s: Service, now: real, sdk: Sdk, f: Function, args: Args)
    requires m.Valid()
    ensures Invoked(m, s, now, sdk, f, args).reply == Refused <==> !sdk.Rotary? || f.OtherFunction? || args.NotADict?
    ensures Invoked(m, s, now, sdk, f, args).reply == Refused ==> Invoked(m, s, now, sdk, f, args).service == s
  {
  }

  /** A return code is an integer of 32 bits, but for the one that stands for a control failure. */
  predicate GoodReturn(value: Value) {
    value.Int? && -0x7FFF_FFFF <= value.i <= 0x7FFF_FFFF
  }

  /** A sequence is accepted exactly for a known function, with a list of at most 10000 return codes. */
  lemma SequencesAreChecked(m: Machine, s: Service, now: real, later: real, f: Function, values: Option<seq<Value>>)
    requires m.Valid() && !s.failed && !s.nativeErrors
    ensures var out := Step(m, s, Dispatch(now, later, SetSequence(Some(f), values)));
      && (out.reply != Refused <==>
            !f.OtherFunction? && values.Some? && |values.value| <= 10000 && forall v | v in values.value :: GoodReturn(v))
      && (out.reply == Refused ==> out.service == Synced(m, s, now))
  {
    assert forall v :: GoodReturn(v) <==> ValidCode(v);
  }

  /** A query of sequences is refused exactly if it names no function. */
  lemma QueriesAreChecked(m: Machine, s: Service, now: real, later: real, queried: Option<Option<Function>>)
    requires m.Valid() && !s.failed && !s.nativeErrors
    ensures var out := Step(m, s, Dispatch(now, later, GetSequences(queried)));
      && out.service == Synced(m, s, now)
      && (out.reply == Refused <==> queried.Some? && (queried.value.None? || queried.value.value.OtherFunction?))
  {
  }

  // ---------------------------------------------------------------------------------------------
  // Start, reset and failure.

  /** A host that has just started shows the axis where the profile puts it, switched off, and answers
      every call without an override. */
  lemma StartIsShown(m: Machine, start: real, now: real, later: real)
    requires m.Valid()
    ensures Step(m, Start(m, start), Dispatch(now, later, GetSnapshot)).reply ==
      Observed(Snapshot(m.profile.initial, 0.0, m.profile.initial, false, false, false, false, 0, Idle,
                        Faults(false, false, false)))
    ensures Step(m, Start(m, start), Dispatch(now, later, GetSequences(None))).reply == Listed(map[])
    ensures !Start(m, start).failed && !Start(m, start).nativeErrors
  {
  }

  /** A reset is a fresh start: the host is from then on the one that would have started at its end. */
  lemma ResetIsAFreshStart(m: Machine, s: Service, now: real, later: real)
    requires m.Valid() && !s.failed && !s.nativeErrors
    ensures Step(m, s, Dispatch(now, later, Restart(false))) == Outcome(Start(m, later), Done)
  {
  }

  /** After a reset that raised, or a failure of the background loop, nothing answers but `ping` and
      `diagnostics`, and nothing changes any more. */
  lemma FailureIsFinal(m: Machine, s: Service, now: real, later: real, sdk: Sdk, f: Function, args: Args, request: Request)
    requires m.Valid() && s.failed
    ensures Invoked(m, s, now, sdk, f, args).service == s && !Invoked(m, s, now, sdk, f, args).reply.Returned?
    ensures Step(m, s, Dispatch(now, later, request)).service == s
    ensures !request.Ping? && !request.Diagnostics? ==> Step(m, s, Dispatch(now, later, request)).reply == Unusable
  {
  }

  lemma FailuresAreFailures(m: Machine, s: Service, now: real, later: real)
    requires m.Valid()
    ensures Step(m, s, LoopFailed).service.failed && Step(m, s, NativeError).service.nativeErrors
    ensures !s.failed && !s.nativeErrors ==> Step(m, s, Dispatch(now, later, Restart(true))).service.failed
    ensures s.nativeErrors ==> Step(m, s, Dispatch(now, later, GetSnapshot)).reply == Unusable
  {
  }
}
