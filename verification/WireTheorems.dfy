/** A whole exchange: from a call of the C library through the host and back. */
module WireTheorems {
  import opened Options
  import opened Bytes
  import opened Axis
  import opened AxisTheorems
  import opened SdkService
  import opened SdkTheorems
  import opened WireAbi

  /** The host's answer to the bytes of a request, if it answers at all. */
  function Served(m: Machine, floats: double -> real, s: Service, now: real, request: seq<byte>): Option<Outcome>
    requires m.profile.Valid() && |request| == REQUEST_SIZE
  {
    var parsed := Parsed(request);
    if parsed.None? then None
    else
      var f := FunctionAt(parsed.value.opcode);
      if f.None? then None
      else Some(Invoked(m, s, now, Rotary, f.value, ArgsOf(floats, f.value, parsed.value)))
  }

  lemma StateIsAcceptable(m: Machine, bits: real -> double, s: State)
    requires Consistent(m, s)
    requires forall x | -m.profile.maxSpeed <= x <= m.profile.maxSpeed || Within(m, x) :: WireAbi.Finite(bits(x))
    ensures 0 <= SnapshotOf(s).alarm < 0x1_0000_0000 && Acceptable(StateOf(bits, SnapshotOf(s)))
  {
    FlagsRoundTrip(s.faults, 0);
  }

  /** What the caller reads in each field is what the host shows there; bits 0, 1 and 2 of the faults are
      the stall and the two limits. */
  predicate Carries(bits: real -> double, w: WireState, shown: Snapshot) {
    && w.position == bits(shown.position) && w.velocity == bits(shown.velocity) && w.target == bits(shown.target)
    && w.enabled == (if shown.enabled then 1 else 0) && w.homed == (if shown.homed then 1 else 0)
    && w.busy == (if shown.busy then 1 else 0) && w.done == (if shown.done then 1 else 0)
    && w.alarm == shown.alarm && w.faults <= 7
    && (w.faults % 2 == 1 <==> shown.faults.stalled)
    && (w.faults / 2 % 2 == 1 <==> shown.faults.positiveLimit)
    && (w.faults / 4 % 2 == 1 <==> shown.faults.negativeLimit)
  }

  lemma StateIsCarried(bits: real -> double, shown: Snapshot)
    requires 0 <= shown.alarm < 0x1_0000_0000
    ensures Carries(bits, StateOf(bits, shown), shown)
  {
  }

  /** For every reachable state of the host and every finite call, the caller gets the code and, with OK,
      the state that the host returned for the very command meant; nothing in between is lost or refused. */
  lemma CallRoundTrip(m: Machine, floats: double -> real, bits: real -> double, s: Service, now: real,
                      f: Function, axis: int32, angle: double, speed: double, wanted: bool)
    requires m.Valid() && ServiceInvariant(m, s) && !s.failed
    requires !f.OtherFunction? && WireAbi.Finite(angle) && WireAbi.Finite(speed)
    requires forall x | -m.profile.maxSpeed <= x <= m.profile.maxSpeed || Within(m, x) :: WireAbi.Finite(bits(x))
    ensures var meant := Invoked(m, s, now, Rotary, f, Meant(floats, f, axis, angle, speed));
      && Served(m, floats, s, now, RequestBytes(CallFor(f, axis, angle, speed))) == Some(meant)
      && meant.reply.Returned? && CONTROL_ERROR < meant.reply.code < 0x8000_0000
      && 0 <= meant.reply.state.alarm < 0x1_0000_0000
      && Understood(ReplyBytes(meant.reply.code, StateOf(bits, meant.reply.state)), wanted) ==
           Answer(meant.reply.code, if meant.reply.code == 0 && wanted then Some(StateOf(bits, meant.reply.state)) else None)
      && Carries(bits, StateOf(bits, meant.reply.state), meant.reply.state)
  {
    CallIsUnderstood(floats, f, axis, angle, speed);
    var args := Meant(floats, f, axis, angle, speed);
    var meant := Invoked(m, s, now, Rotary, f, args);
    InvokedInvariant(m, s, now, Rotary, f, args);
    StateIsAcceptable(m, bits, meant.service.axis);
    StateIsCarried(bits, meant.reply.state);
    ReplyIsUnderstood(meant.reply.code, StateOf(bits, meant.reply.state), wanted);
  }

  /** What `SX_GetPosition` gives its caller: the code and, with OK, the position. */
  function PositionIn(answer: Answer): Option<double> {
    if answer.Answer? && answer.code == 0 && answer.state.Some? then Some(answer.state.value.position) else None
  }

  lemma AskingShowsThePosition(m: Machine, s: Service, now: real, args: Args)
    requires m.profile.Valid() && Invoked(m, s, now, Rotary, GetPosition, args).reply.Returned?
    ensures Invoked(m, s, now, Rotary, GetPosition, args).reply.state.position == SnapshotOf(Synced(m, s, now).axis).position
  {
  }

  /** Asked for the position with success, the caller gets the one that a snapshot at that time shows. */
  lemma PositionIsRead(m: Machine, floats: double -> real, bits: real -> double, s: Service, now: real, axis: int32)
    requires m.Valid() && ServiceInvariant(m, s) && !s.failed
    requires forall x | -m.profile.maxSpeed <= x <= m.profile.maxSpeed || Within(m, x) :: WireAbi.Finite(bits(x))
    ensures var reply := Invoked(m, s, now, Rotary, GetPosition, Meant(floats, GetPosition, axis, 0, 0)).reply;
      && reply.Returned? && CONTROL_ERROR < reply.code < 0x8000_0000 && 0 <= reply.state.alarm < 0x1_0000_0000
      && var answer := Understood(ReplyBytes(reply.code, StateOf(bits, reply.state)), true);
         reply.code == 0 ==> PositionIn(answer) == Some(bits(SnapshotOf(Synced(m, s, now).axis).position))
  {
    CallRoundTrip(m, floats, bits, s, now, GetPosition, axis, 0, 0, true);
    AskingShowsThePosition(m, s, now, Meant(floats, GetPosition, axis, 0, 0));
  }
}
