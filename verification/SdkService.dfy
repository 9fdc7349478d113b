/** The SDK host: it advances the axis lazily from a clock, applies injected return codes and
    dispatches test control.

    Every reading of the clock is part of the event that made it.  The text of targets is reduced to
    what the host decides about it: which function of the reference SDK it names, if any. */
module SdkService {
  import opened Reals
  import opened Options
  import opened Motion
  import opened Axis
  import opened Sequences

  const MIN_CODE := -0x8000_0000
  const CODE_LIMIT := 0x8000_0000
  const MAX_VALUES := 10000

  datatype Service = Service(axis: State, last: real, sequences: Store<Function, int>,
                             failed: bool, nativeErrors: bool)

  /** `NoSdk` is a request that leaves the SDK out and so means the reference one. */
  datatype Sdk = Rotary | NoSdk | OtherSdk

  /** `Restart(true)` is a reset in which the device model raises. */
  datatype Request =
    | Ping | Health | Diagnostics | GetSnapshot | UnknownOperation
    | Call(sdk: Sdk, f: Function, args: Args)
    | InjectFault(name: FaultName, active: Value)
    | SetSequence(target: Option<Function>, values: Option<seq<Value>>)
    | GetSequences(queried: Option<Option<Function>>)
    | Restart(modelFails: bool)

  datatype Event =
    | Tick(now: real)
    | Invoke(now: real, sdk: Sdk, f: Function, args: Args)
    | Dispatch(now: real, later: real, request: Request)
    | LoopFailed
    | NativeError

  datatype Reply =
    | Returned(code: int, state: Snapshot)
    | Observed(state: Snapshot)
    | Reported(report: Report<int>)
    | Listed(reports: map<Function, Report<int>>)
    | Diagnosed(state: Snapshot, reports: map<Function, Report<int>>, failed: bool)
    | Described(profile: Parameters)
    | Done
    | Refused
    | Unusable

  datatype Outcome = Outcome(service: Service, reply: Reply)

  function Start(m: Machine, now: real): Service {
    Service(Initial(m), now, map[], false, false)
  }

  predicate ValidTarget(sdk: Sdk, f: Function) {
    sdk.Rotary? && !f.OtherFunction?
  }

  predicate ValidCode(v: Value) {
    v.Int? && MIN_CODE < v.i < CODE_LIMIT
  }

  predicate ValidReturns(values: Option<seq<Value>>) {
    values.Some? && |values.value| <= MAX_VALUES && forall v | v in values.value :: ValidCode(v)
  }

  function Codes(values: seq<Value>): (codes: seq<int>)
    requires forall v | v in values :: ValidCode(v)
    ensures |codes| == |values| && forall i | 0 <= i < |codes| :: Int(codes[i]) == values[i]
  {
    if values == [] then []
    else
      assert ValidCode(values[0]);
      [values[0].i] + Codes(values[1..])
  }

  function Synced(m: Machine, s: Service, now: real): Service {
    s.(axis := Advanced(m, s.axis, Max(0.0, now - s.last)), last := now)
  }

  /** The code a call returns and whether it ran: an injected failure is decided before execution, an
      injected success still has to pass validation. */
  function ReturnCode(injected: Option<int>, normal: Result): int {
    if injected.Some? && injected.value != 0 then injected.value else normal.Code()
  }

  /** A recognised call on a host brought up to date. */
  function Called(m: Machine, s: Service, f: Function, args: Args): Outcome
    requires m.profile.Valid()
  {
    var code := ReturnCode(Selected(s.sequences, f).value, Validate(m, s.axis, f, args));
    var axis := if code == 0 then Executed(m, s.axis, f, args) else s.axis;
    Outcome(s.(axis := axis, sequences := Consumed(s.sequences, f)), Returned(code, SnapshotOf(axis)))
  }

  function Invoked(m: Machine, s: Service, now: real, sdk: Sdk, f: Function, args: Args): Outcome
    requires m.profile.Valid()
  {
    if !ValidTarget(sdk, f) || args.NotADict? then Outcome(s, Refused)
    else if s.failed then Outcome(s, Unusable)
    else Called(m, Synced(m, s, now), f, args)
  }

  function Handled(m: Machine, s: Service, later: real, request: Request): Outcome
    requires m.profile.Valid()
  {
    match request
    case Ping | Diagnostics | Health => Outcome(s, Done)
    case GetSnapshot => Outcome(s, Observed(SnapshotOf(s.axis)))
    case Call(sdk, f, args) => Invoked(m, s, later, if sdk.NoSdk? then Rotary else sdk, f, args)
    case InjectFault(name, active) =>
      var axis := Faulted(m, s.axis, name, active);
      Outcome(s.(axis := axis), if ValidFault(name, active) then Observed(SnapshotOf(axis)) else Refused)
    case SetSequence(target, values) =>
      if target.None? || target.value.OtherFunction? || !ValidReturns(values) then Outcome(s, Refused)
      else
        var sequences := Configured(s.sequences, target.value, Codes(values.value));
        Outcome(s.(sequences := sequences), Reported(Reports(sequences, target)[target.value]))
    case GetSequences(queried) =>
      if queried.None? then Outcome(s, Listed(Reports(s.sequences, None)))
      else if queried.value.None? || queried.value.value.OtherFunction? then Outcome(s, Refused)
      else Outcome(s, Listed(Reports(s.sequences, queried.value)))
    case Restart(modelFails) =>
      if modelFails then Outcome(s.(failed := true), Unusable)
      else Outcome(s.(axis := Initial(m), sequences := map[], last := later), Done)
    case UnknownOperation => Outcome(s, Refused)
  }

  function Dispatched(m: Machine, s: Service, now: real, later: real, request: Request): Outcome
    requires m.profile.Valid()
  {
    if request.Ping? then Outcome(s, Described(m.profile))
    else if request.Diagnostics? then Outcome(s, Diagnosed(SnapshotOf(s.axis), Reports(s.sequences, None), s.failed))
    else if s.nativeErrors || s.failed then Outcome(s, Unusable)
    else if request.Health? then Outcome(s, Done)
    else Handled(m, Synced(m, s, now), later, request)
  }

  function Step(m: Machine, s: Service, e: Event): Outcome
    requires m.profile.Valid()
  {
    match e
    case Tick(now) => Outcome(Synced(m, s, now), Done)
    case Invoke(now, sdk, f, args) => Invoked(m, s, now, sdk, f, args)
    case Dispatch(now, later, request) => Dispatched(m, s, now, later, request)
    case LoopFailed => Outcome(s.(failed := true), Done)
    case NativeError => Outcome(s.(nativeErrors := true), Done)
  }

  // ---------------------------------------------------------------------------------------------
  // The host as an object.

  class SDKService {
    const machine: Machine
    const model: RotaryAxis
    const sequences: SequenceStore<Function, int>
    var lastTime: real
    var failed: bool
    var nativeErrors: bool

    ghost predicate Valid()
      reads this
    {
      machine.profile.Valid() && model.machine == machine
    }

    ghost function View(): Service
      reads this, model, sequences
    {
      Service(model.View(), lastTime, sequences.entries, failed, nativeErrors)
    }

    constructor (machine: Machine, now: real)
      requires machine.profile.Valid()
      ensures Valid() && View() == Start(machine, now) && fresh(model) && fresh(sequences)
    {
      this.machine := machine;
      model := new RotaryAxis(machine);
      sequences := new SequenceStore<Function, int>();
      lastTime, failed, nativeErrors := now, false, false;
    }

    method Sync(now: real)
      requires Valid()
      modifies this, model
      ensures Valid() && View() == Synced(machine, old(View()), now)
    {
      var _ := model.Advance(Float(Max(0.0, now - lastTime)));
      lastTime := now;
    }

    method Invoke(now: real, sdk: Sdk, f: Function, args: Args) returns (reply: Reply)
      requires Valid()
      modifies this, model, sequences
      ensures Valid()
      ensures Outcome(View(), reply) == Invoked(machine, old(View()), now, sdk, f, args)
    {
      if !ValidTarget(sdk, f) || args.NotADict? {
        return Refused;
      }
      if failed {
        return Unusable;
      }
      Sync(now);
      var normal := Validate(machine, model.View(), f, args);
      var selection := sequences.Take(f);
      var override := if selection.value.Some? then selection.value.value else 0;
      var code := if override != 0 then override else normal.Code();
      if code == 0 {
        var result := model.Execute(f, args);
        code := result.Code();
      }
      reply := Returned(code, SnapshotOf(model.View()));
    }

    method Dispatch(now: real, later: real, request: Request) returns (reply: Reply)
      requires Valid()
      modifies this, model, sequences
      ensures Valid()
      ensures Outcome(View(), reply) == Dispatched(machine, old(View()), now, later, request)
    {
      if request.Ping? {
        return Described(machine.profile);
      }
      if request.Diagnostics? {
        var reports := sequences.Snapshot(None);
        return Diagnosed(SnapshotOf(model.View()), reports, failed);
      }
      if nativeErrors || failed {
        return Unusable;
      }
      if request.Health? {
        return Done;
      }
      Sync(now);
      match request {
        case Ping | Diagnostics | Health =>
          reply := Done;
        case GetSnapshot =>
          reply := Observed(SnapshotOf(model.View()));
        case Call(sdk, f, args) =>
          reply := Invoke(later, if sdk.NoSdk? then Rotary else sdk, f, args);
        case InjectFault(name, active) =>
          var accepted := model.SetFault(name, active);
          reply := if accepted then Observed(SnapshotOf(model.View())) else Refused;
        case SetSequence(target, values) =>
          if target.None? || target.value.OtherFunction? || !ValidReturns(values) {
            return Refused;
          }
          var _ := sequences.Set(target.value, Some(Codes(values.value)));
          var reports := sequences.Snapshot(target);
          reply := Reported(reports[target.value]);
        case GetSequences(queried) =>
          if queried.Some? && (queried.value.None? || queried.value.value.OtherFunction?) {
            return Refused;
          }
          var reports := sequences.Snapshot(if queried.Some? then queried.value else None);
          reply := Listed(reports);
        case Restart(modelFails) =>
          if modelFails {
            failed := true;
            return Unusable;
          }
          model.Reset();
          sequences.Reset();
          lastTime := later;
          reply := Done;
        case UnknownOperation =>
          reply := Refused;
      }
    }
  }
}
