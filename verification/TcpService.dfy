/** The TCP host: framing of one connection's byte stream, atomic handling of each frame, and control. */
module TcpService {
  import opened Options
  import opened Bytes
  import opened Targets
  import opened Sequences
  import opened Modbus
  import opened Framing

  const MAX_VALUES := 10000

  /** A sequence item as configured: anything may be sent, only an object of known fields is kept. */
  datatype Patch = Object(fields: Fields) | NotAnObject

  datatype Server = Server(holding: Registers, sequences: Store<string, Patch>, generation: nat, failed: bool)

  function StartServer(): Server {
    Server(INITIAL, map[], 0, false)
  }

  // ---------------------------------------------------------------------------------------------
  // One frame.

  /** The response fields with a patch applied, or `None` where the original raises. */
  function Patched(target: string, patch: Patch, fields: Fields): Option<Fields> {
    if patch.NotAnObject? || !(patch.fields.Keys <= fields.Keys) then None
    else
      var merged := fields + patch.fields;
      if ValidFields(target, merged) then Some(merged) else None
  }

  const NO_PATCH: Patch := Object(map[])

  function Encoded(s: Server, r: Request, fields: Fields): Handled<Server> {
    var bytes := EncodeResponse(r, fields);
    if bytes.None? then Ended(s) else Answered(s, bytes.value)
  }

  /** The next item of the target's sequence, if any, takes the place of the fields it names. */
  function Overridden(s: Server, r: Request, normal: Fields, target: string): Handled<Server> {
    var selection := Selected(s.sequences, target);
    var taken := s.(sequences := Consumed(s.sequences, target));
    var fields := Patched(target, if selection.value.Some? then selection.value.value else NO_PATCH, normal);
    if fields.None? then Ended(taken) else Encoded(taken, r, fields.value)
  }

  /** The section under the state lock: the device first, then the sequence, then the encoding.  A
      step that raises ends the connection with whatever had been changed by then. */
  function HandleFrame(s: Server, r: Request): Handled<Server> {
    var normal := Response(s.holding, r);
    var done := s.(holding := Written(s.holding, r));
    if ExceptionOf(normal) == Number(0) && |r.data| < 4 then Ended(done)
    else
      var target := SequenceTarget(r, normal);
      if target.None? then Encoded(done, r, normal)
      else if !ValidFields(target.value, normal) then Ended(done)
      else Overridden(done, r, normal, target.value)
  }

  /** Neither overtaken by a reset since the given generation, nor failed. */
  predicate InForce(s: Server, generation: nat) {
    s.generation == generation && !s.failed
  }

  /** A frame of a connection that was opened in the given generation. */
  function Section(generation: nat): Handler<Server> {
    (s: Server, r: Request) => if InForce(s, generation) then HandleFrame(s, r) else Ended(s)
  }

  // ---------------------------------------------------------------------------------------------
  // Control.

  datatype Control =
    | Ping | Diagnostics | Health | UnknownOperation
    | SetSequence(target: string, values: Option<seq<Patch>>)
    | GetSequences(queried: Option<string>)
    | Reset(modelFails: bool)

  datatype Answer =
    | Done | Refused | Unusable | Reported(report: Report<Patch>)
    | Listed(reports: map<string, Report<Patch>>) | Diagnosed(reports: map<string, Report<Patch>>, failed: bool)

  predicate ValidPatch(target: string, patch: Patch)
    requires TargetParts(target).Some?
  {
    Patched(target, patch, Baseline(TargetParts(target).value)).Some?
  }

  predicate ValidSequence(target: string, values: Option<seq<Patch>>) {
    && TargetParts(target).Some?
    && values.Some? && |values.value| <= MAX_VALUES
    && forall i | 0 <= i < |values.value| :: ValidPatch(target, values.value[i])
  }

  datatype Controlled = Controlled(server: Server, answer: Answer)

  /** `Reset(true)` is a reset in which the device model raises. */
  function Dispatched(s: Server, c: Control): Controlled {
    if c.Ping? then Controlled(s, Done)
    else if c.Diagnostics? then Controlled(s, Diagnosed(Reports(s.sequences, None), s.failed))
    else if s.failed then Controlled(s, Unusable)
    else
      match c
      case Ping | Diagnostics | Health => Controlled(s, Done)
      case SetSequence(target, values) =>
        if !ValidSequence(target, values) then Controlled(s, Refused)
        else
          var after := s.(sequences := Configured(s.sequences, target, values.value));
          Controlled(after, Reported(Reports(after.sequences, Some(target))[target]))
      case GetSequences(queried) =>
        if queried.Some? && TargetParts(queried.value).None? then Controlled(s, Refused)
        else Controlled(s, Listed(Reports(s.sequences, queried)))
      case Reset(modelFails) =>
        if modelFails then Controlled(s.(generation := s.generation + 1, failed := true), Unusable)
        else Controlled(s.(generation := s.generation + 1, holding := INITIAL, sequences := map[]), Done)
      case UnknownOperation => Controlled(s, Refused)
  }

  // ---------------------------------------------------------------------------------------------
  // The host as an object.

  class TCPService {
    const model: DetectorRegisters
    const sequences: SequenceStore<string, Patch>
    var generation: nat
    var failed: bool

    ghost function View(): Server
      reads this, model, sequences
    {
      Server(model.holding, sequences.entries, generation, failed)
    }

    constructor ()
      ensures View() == StartServer() && fresh(model) && fresh(sequences)
    {
      model := new DetectorRegisters();
      sequences := new SequenceStore<string, Patch>();
      generation, failed := 0, false;
    }

    method Handle(r: Request) returns (bytes: Option<seq<byte>>)
      modifies model, sequences
      ensures View() == HandleFrame(old(View()), r).server
      ensures bytes == match HandleFrame(old(View()), r) case Answered(_, b) => Some(b) case Ended(_) => None
    {
      var normal := model.Respond(r);
      if ExceptionOf(normal) == Number(0) && |r.data| < 4 {
        return None;
      }
      var target := SequenceTarget(r, normal);
      if target.None? {
        return EncodeResponse(r, normal);
      }
      if !ValidFields(target.value, normal) {
        return None;
      }
      var selection := sequences.Take(target.value);
      var patch := if selection.value.Some? then selection.value.value else NO_PATCH;
      var fields := Patched(target.value, patch, normal);
      if fields.None? {
        return None;
      }
      bytes := EncodeResponse(r, fields.value);
    }

    /** Serves the chunks a peer sends; whether a reset came in between is looked up before every frame.
        `sent` is what went back. */
    method ServeConnection(chunks: seq<seq<byte>>) returns (ghost session: Session<Server>, sent: seq<byte>, open: bool)
      modifies model, sequences
      ensures session == ReceiveAll(Section(old(generation)), Opened(old(View())), chunks)
      ensures View() == session.server && sent == session.sent && open == session.open
    {
      var buffer: seq<byte> := [];
      sent, open := [], true;
      session := Opened(View());
      var joined := generation;
      ghost var start := session;
      var n := 0;
      while n < |chunks| && open
        invariant 0 <= n <= |chunks|
        invariant session == Session(View(), session.handled, sent, if open then buffer else [], open)
        invariant ReceiveAll(Section(joined), start, chunks) == ReceiveAll(Section(joined), session, chunks[n..])
      {
        ghost var before := session;
        buffer := buffer + chunks[n];
        session := session.(buffer := buffer);
        if |buffer| > MAX_BUFFER {
          open, session := false, Closed(session);
        } else {
          buffer, sent, open, session := HandleAll(joined, buffer, sent, session);
        }
        assert session == Receive(Section(joined), before, chunks[n]);
        assert chunks[n..][1..] == chunks[n + 1..];
        n := n + 1;
      }
      if !open {
        ClosedStaysClosed(Section(joined), session, chunks[n..]);
      }
    }

    /** The inner loop: takes complete frames off the buffer until none is left. */
    method HandleAll(joined: nat, pending: seq<byte>, already: seq<byte>, ghost before: Session<Server>)
      returns (buffer: seq<byte>, sent: seq<byte>, open: bool, ghost after: Session<Server>)
      requires before == Session(View(), before.handled, already, pending, true)
      modifies model, sequences
      ensures after == Drain(Section(joined), before)
      ensures after == Session(View(), after.handled, sent, if open then buffer else [], open)
    {
      buffer, sent, open, after := pending, already, true, before;
      while true
        invariant open && after == Session(View(), after.handled, sent, buffer, true)
        invariant Drain(Section(joined), before) == Drain(Section(joined), after)
        decreases |buffer|
      {
        match DecodeRequest(buffer) {
          case Incomplete =>
            return;
          case Malformed =>
            open, after := false, Closed(after);
            return;
          case Frame(r, used) =>
            ghost var next := AfterFrame(Section(joined), after, r, used);
            buffer, after := buffer[used..], next;
            if joined != generation || failed {
              open := false;
              return;
            }
            var bytes := Handle(r);
            if bytes.None? {
              open := false;
              return;
            }
            sent := sent + bytes.value;
        }
      }
    }

    method Dispatch(c: Control) returns (answer: Answer)
      modifies this, model, sequences
      ensures Controlled(View(), answer) == Dispatched(old(View()), c)
    {
      if c.Ping? {
        return Done;
      }
      if c.Diagnostics? {
        var reports := sequences.Snapshot(None);
        return Diagnosed(reports, failed);
      }
      if failed {
        return Unusable;
      }
      match c {
        case Ping | Diagnostics | Health =>
          answer := Done;
        case SetSequence(target, values) =>
          if !ValidSequence(target, values) {
            return Refused;
          }
          var _ := sequences.Set(target, values);
          var reports := sequences.Snapshot(Some(target));
          answer := Reported(reports[target]);
        case GetSequences(queried) =>
          if queried.Some? && TargetParts(queried.value).None? {
            return Refused;
          }
          var reports := sequences.Snapshot(queried);
          answer := Listed(reports);
        case Reset(modelFails) =>
          generation := generation + 1;
          if modelFails {
            failed := true;
            return Unusable;
          }
          model.Reset();
          sequences.Reset();
          answer := Done;
        case UnknownOperation =>
          answer := Refused;
      }
    }
  }
}
