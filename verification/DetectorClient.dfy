/** The reference system under test: its own Modbus client, written apart from the device's codec. */
module DetectorClient {
  import opened Reals
  import opened Options
  import opened Bytes
  import opened Modbus
  import opened Targets
  import opened TcpService
  import opened TcpTheorems

  /** How an exchange ends: with what the device said, or cut short.  `Overdue` is the deadline of the
      whole operation, `TimedOut` that of the exchange, `Unfinished` an exchange that still waits. */
  datatype Outcome =
    | Registers(values: seq<word>) | DeviceError(code: int) | ProtocolError
    | ClosedByPeer | TimedOut | Cancelled | Overdue | Unfinished

  /** One turn of the receiving loop: whether the operation has been cancelled, the clock at the check of
      its deadline and at that of the exchange, and the part received, unless none came in time. */
  datatype Turn = Turn(cancelled: bool, checked: real, asked: real, received: Option<seq<byte>>)

  datatype Verdict = Wait | Verdict(outcome: Outcome)

  const UNIT: byte := 1
  const READ_INPUT: byte := 4
  const EXCEPTION_REPLY: byte := 0x84

  /** The 12 bytes of a function 04 request. */
  function RequestBytes(id: word, address: word, quantity: word): seq<byte> {
    [High(id), Low(id), 0, 0, 0, 6, UNIT, READ_INPUT, High(address), Low(address), High(quantity), Low(quantity)]
  }

  function InspectPdu(pdu: seq<byte>, quantity: word): Verdict
    requires pdu != []
  {
    if pdu[0] == EXCEPTION_REPLY then
      if |pdu| != 2 || pdu[1] == 0 then Verdict(ProtocolError) else Verdict(DeviceError(pdu[1]))
    else if pdu[0] != READ_INPUT || |pdu| != 2 + 2 * quantity || pdu[1] != 2 * quantity then Verdict(ProtocolError)
    else Verdict(Registers(Words(pdu[2..])))
  }

  /** What the bytes received so far amount to. */
  function Inspect(buffer: seq<byte>, id: word, quantity: word): Verdict {
    if |buffer| < 7 then Wait
    else
      var transaction, protocol := Word(buffer[0], buffer[1]), Word(buffer[2], buffer[3]);
      var length, unit := Word(buffer[4], buffer[5]), buffer[6];
      if transaction != id || protocol != 0 || unit != UNIT || !(2 <= length <= 254) then Verdict(ProtocolError)
      else if |buffer| < length + 6 then Wait
      else if |buffer| != length + 6 then Verdict(ProtocolError)
      else InspectPdu(buffer[7..], quantity)
  }

  /** The outcome of the loop, turn after turn; an empty part is the end of the stream.  `until` is the
      deadline of the exchange, `deadline` that of the operation. */
  function Listen(buffer: seq<byte>, turns: seq<Turn>, until: real, deadline: real, id: word, quantity: word): Outcome
    decreases |turns|
  {
    if turns == [] then Unfinished
    else
      var turn := turns[0];
      if turn.cancelled then Cancelled
      else if turn.checked >= deadline then Overdue
      else if turn.asked >= until || turn.received.None? then TimedOut
      else if turn.received.value == [] then ClosedByPeer
      else
        var fed := buffer + turn.received.value;
        var verdict := Inspect(fed, id, quantity);
        if verdict.Wait? then Listen(fed, turns[1..], until, deadline, id, quantity) else verdict.outcome
  }

  class DetectorSUT {
    const ioTimeout: real
    var deadline: real
    var requestId: word

    constructor (ioTimeout: real)
      ensures this.ioTimeout == ioTimeout && requestId == 0
    {
      this.ioTimeout := ioTimeout;
      deadline, requestId := 0.0, 0;
    }

    /** An operation that is cancelled or overdue sends nothing and uses up no number. */
    method Exchange(cancelled: bool, checked: real, begun: real, turns: seq<Turn>, address: word, quantity: word)
      returns (request: Option<seq<byte>>, outcome: Outcome)
      modifies this`requestId
      ensures request.None? <==> cancelled || checked >= deadline
      ensures request.None? ==> requestId == old(requestId) && outcome == if cancelled then Cancelled else Overdue
      ensures request.Some? ==>
        && requestId == (old(requestId) + 1) % 65536
        && request.value == RequestBytes(requestId, address, quantity)
        && outcome == Listen([], turns, Min(deadline, begun + ioTimeout), deadline, requestId, quantity)
    {
      if cancelled {
        return None, Cancelled;
      }
      if checked >= deadline {
        return None, Overdue;
      }
      var next: int := requestId + 1;
      requestId := next % 65536;
      var until := Min(deadline, begun + ioTimeout);
      request := Some(RequestBytes(requestId, address, quantity));
      outcome := Receive(turns, until, quantity);
    }

    method Receive(turns: seq<Turn>, until: real, quantity: word) returns (outcome: Outcome)
      ensures outcome == Listen([], turns, until, deadline, requestId, quantity)
    {
      var buffer: seq<byte> := [];
      var n := 0;
      while n < |turns|
        invariant 0 <= n <= |turns|
        invariant Listen([], turns, until, deadline, requestId, quantity)
                  == Listen(buffer, turns[n..], until, deadline, requestId, quantity)
      {
        var turn := turns[n];
        if turn.cancelled {
          return Cancelled;
        }
        if turn.checked >= deadline {
          return Overdue;
        }
        if turn.asked >= until || turn.received.None? {
          return TimedOut;
        }
        if turn.received.value == [] {
          return ClosedByPeer;
        }
        buffer := buffer + turn.received.value;
        var verdict := Inspect(buffer, requestId, quantity);
        if verdict.Verdict? {
          return verdict.outcome;
        }
        assert turns[n..][1..] == turns[n + 1..];
        n := n + 1;
      }
      outcome := Unfinished;
    }
  }

  // ---------------------------------------------------------------------------------------------
  // The parser accepts exactly the device's frames.

  /** Parsing what the device encloses gives the verdict on its PDU, and no sooner. */
  lemma InspectEnclosed(id: word, pdu: seq<byte>, quantity: word, n: nat)
    requires 1 <= |pdu| <= 253 && n <= 7 + |pdu|
    ensures var frame := Enclose(id, UNIT, pdu);
      Inspect(frame[..n], id, quantity) == if n < 7 + |pdu| then Wait else InspectPdu(pdu, quantity)
  {
    var frame := Enclose(id, UNIT, pdu);
    EncloseLayout(id, UNIT, pdu, []);
    assert frame + [] == frame;
    if n >= 7 {
      assert frame[..n][..7] == frame[..7];
      if n == 7 + |pdu| {
        assert frame[..n] == frame;
      }
    }
  }

  /** All that the turns bring. */
  function Arrived(turns: seq<Turn>): seq<byte> {
    if turns == [] then []
    else (if turns[0].received.Some? then turns[0].received.value else []) + Arrived(turns[1..])
  }

  predicate InTime(turns: seq<Turn>, until: real, deadline: real) {
    forall i | 0 <= i < |turns| ::
      !turns[i].cancelled && turns[i].checked < deadline && turns[i].asked < until
      && turns[i].received.Some? && turns[i].received.value != []
  }

  predicate CutShort(outcome: Outcome) {
    outcome.ClosedByPeer? || outcome.TimedOut? || outcome.Cancelled? || outcome.Overdue? || outcome.Unfinished?
  }

  /** The exchange ends as it should, or is cut short; if nothing is late or missing, it is not. */
  predicate EndsAs(outcome: Outcome, expected: Outcome, complete: bool) {
    outcome == expected || (!complete && CutShort(outcome))
  }

  lemma FedByOneTurn(buffer: seq<byte>, part: seq<byte>, rest: seq<byte>, frame: seq<byte>)
    requires buffer + (part + rest) <= frame
    ensures buffer + part + rest == buffer + (part + rest)
    ensures buffer + part <= frame && frame[..|buffer + part|] == buffer + part
  {
    assert buffer + part + rest == buffer + (part + rest);
  }

  /** However a response is cut into parts, and whatever the clocks say, the exchange ends with the verdict
      on its PDU or is cut short before it is complete. */
  lemma {:induction false} ListenEnclosed(id: word, pdu: seq<byte>, quantity: word, buffer: seq<byte>, turns: seq<Turn>,
                                          until: real, deadline: real)
    requires 1 <= |pdu| <= 253 && |buffer| < 7 + |pdu|
    requires buffer + Arrived(turns) <= Enclose(id, UNIT, pdu)
    ensures InspectPdu(pdu, quantity).Verdict?
    ensures EndsAs(Listen(buffer, turns, until, deadline, id, quantity), InspectPdu(pdu, quantity).outcome,
                   InTime(turns, until, deadline) && buffer + Arrived(turns) == Enclose(id, UNIT, pdu))
    decreases |turns|
  {
    var frame := Enclose(id, UNIT, pdu);
    if turns == [] {
      assert buffer + Arrived(turns) == buffer;
    } else if turns[0].received.Some? {
      var part := turns[0].received.value;
      FedByOneTurn(buffer, part, Arrived(turns[1..]), frame);
      InspectEnclosed(id, pdu, quantity, |buffer + part|);
      if |buffer + part| < |frame| {
        ListenEnclosed(id, pdu, quantity, buffer + part, turns[1..], until, deadline);
      }
    }
  }

  function RegisterPdu(values: seq<word>): seq<byte>
    requires |values| <= 127
  {
    [READ_INPUT, 2 * |values|] + WordsBytes(values)
  }

  lemma RegisterPduAccepted(values: seq<word>)
    requires |values| <= 127
    ensures InspectPdu(RegisterPdu(values), |values|) == Verdict(Registers(values))
  {
    assert RegisterPdu(values)[2..] == WordsBytes(values);
    WordsRoundTrip(values);
  }

  lemma AcceptedHeader(buffer: seq<byte>, id: word, quantity: word)
    requires Inspect(buffer, id, quantity).Verdict? && Inspect(buffer, id, quantity) != Verdict(ProtocolError)
    ensures 8 <= |buffer| <= 260
    ensures buffer == Enclose(id, UNIT, buffer[7..])
    ensures Inspect(buffer, id, quantity) == InspectPdu(buffer[7..], quantity)
  {
    var length := Word(buffer[4], buffer[5]);
    HeaderIsPrefix(buffer, id, length);
    assert buffer == buffer[..7] + buffer[7..];
  }

  lemma ItsFrameIsAccepted(buffer: seq<byte>, id: word, quantity: word, pdu: seq<byte>)
    requires 1 <= |pdu| <= 253 && buffer == Enclose(id, UNIT, pdu)
    ensures Inspect(buffer, id, quantity) == InspectPdu(pdu, quantity)
  {
    InspectEnclosed(id, pdu, quantity, |buffer|);
    assert buffer[..|buffer|] == buffer;
  }

  lemma AcceptedPdu(pdu: seq<byte>, quantity: word, values: seq<word>)
    requires pdu != [] && InspectPdu(pdu, quantity) == Verdict(Registers(values)) && quantity <= 125
    ensures |values| == quantity && pdu == RegisterPdu(values)
  {
    BytesRoundTrip(pdu[2..]);
    assert pdu == [pdu[0], pdu[1]] + pdu[2..];
  }

  /** And registers are never read out of anything but the one frame that carries them, with the
      transaction and unit of the request. */
  lemma OnlyItsFrameIsAccepted(buffer: seq<byte>, id: word, quantity: word, values: seq<word>)
    requires 1 <= quantity <= 125
    ensures Inspect(buffer, id, quantity) == Verdict(Registers(values))
            <==> |values| == quantity && buffer == Enclose(id, UNIT, RegisterPdu(values))
  {
    if |values| == quantity && buffer == Enclose(id, UNIT, RegisterPdu(values)) {
      ItsFrameIsAccepted(buffer, id, quantity, RegisterPdu(values));
      RegisterPduAccepted(values);
    } else if Inspect(buffer, id, quantity) == Verdict(Registers(values)) {
      AcceptedHeader(buffer, id, quantity);
      AcceptedPdu(buffer[7..], quantity, values);
    }
  }

  // ---------------------------------------------------------------------------------------------
  // Device and client together.

  function ReadRequest(id: word, address: word, quantity: word): Request {
    Request(id, UNIT, READ_INPUT, [High(address), Low(address), High(quantity), Low(quantity)])
  }

  lemma ClientRequestDecodes(id: word, address: word, quantity: word)
    ensures DecodeRequest(RequestBytes(id, address, quantity)) == Frame(ReadRequest(id, address, quantity), 12)
    ensures PartsOf(ReadRequest(id, address, quantity)) == Parts(4, address, quantity)
  {
    WordRoundTrip(id, 0, 0);
    WordRoundTrip(address, 0, 0);
    WordRoundTrip(quantity, 0, 0);
  }

  predicate FitsRead(fields: Fields) {
    && fields.Keys == {Exception, RegisterValues} && IsException(fields[Exception])
    && fields[RegisterValues].List?
    && forall i | 0 <= i < |fields[RegisterValues].items| :: IsRegister(fields[RegisterValues].items[i])
  }

  /** What a client asking for input registers is told: the device's refusal, or what the fields say. */
  function Told(fields: Fields): Outcome
    requires FitsRead(fields)
  {
    if fields[Exception].n != 0 then DeviceError(fields[Exception].n)
    else Registers(RegistersOf(fields[RegisterValues].items))
  }

  /** The fields the device answers a read with: its own, or those injected for this read. */
  function AnswerFields(s: Server, r: Request): Fields
    requires |r.data| >= 4
  {
    Response(s.holding, r) + Override(s, Print(PartsOf(r)))
  }

  lemma ExceptionReaches(r: Request, fields: Fields, code: int, quantity: word, turns: seq<Turn>, until: real,
                         deadline: real)
    requires r.code == READ_INPUT && r.unit == UNIT && ExceptionOf(fields) == Number(code) && 0 < code < 256
    requires EncodeResponse(r, fields).Some? && Arrived(turns) <= EncodeResponse(r, fields).value
    ensures EndsAs(Listen([], turns, until, deadline, r.id, quantity), DeviceError(code),
                   InTime(turns, until, deadline) && Arrived(turns) == EncodeResponse(r, fields).value)
  {
    var pdu: seq<byte> := [EXCEPTION_REPLY, code];
    assert ResponsePdu(r, fields) == Some(pdu);
    assert [] + Arrived(turns) == Arrived(turns);
    ListenEnclosed(r.id, pdu, quantity, [], turns, until, deadline);
  }

  lemma RegistersReach(r: Request, fields: Fields, quantity: word, turns: seq<Turn>, until: real, deadline: real)
    requires r.code == READ_INPUT && r.unit == UNIT && FitsRead(fields) && fields[Exception].n == 0
    requires |fields[RegisterValues].items| == quantity <= 125
    requires EncodeResponse(r, fields).Some? && Arrived(turns) <= EncodeResponse(r, fields).value
    ensures EndsAs(Listen([], turns, until, deadline, r.id, quantity), Registers(RegistersOf(fields[RegisterValues].items)),
                   InTime(turns, until, deadline) && Arrived(turns) == EncodeResponse(r, fields).value)
  {
    var values := RegistersOf(fields[RegisterValues].items);
    assert ResponsePdu(r, fields) == Some(RegisterPdu(values));
    assert [] + Arrived(turns) == Arrived(turns);
    ListenEnclosed(r.id, RegisterPdu(values), quantity, [], turns, until, deadline);
    RegisterPduAccepted(values);
  }

  /** What the client of a read should learn. */
  function ShouldLearn(s: Server, r: Request): Outcome
    requires |r.data| >= 4 && (Rejection(r) == 0 ==> FitsRead(AnswerFields(s, r)))
  {
    if Rejection(r) != 0 then DeviceError(Rejection(r)) else Told(AnswerFields(s, r))
  }

  /** For every function 04 request, in every state of the device, however the response is cut into
      received parts and whatever the clocks say: a request the device refuses ends in exactly its
      exception, any other in exactly the registers or the exception that the device, or the sequence item
      injected for it, says, unless it is cut short.  It is never a protocol error, and it is cut short
      only if something is late or missing. */
  lemma ExchangeIsFaithful(s: Server, id: word, address: word, quantity: word, turns: seq<Turn>, until: real, deadline: real)
    requires ServerInvariant(s)
    ensures var r := ReadRequest(id, address, quantity);
      && DecodeRequest(RequestBytes(id, address, quantity)) == Frame(r, 12)
      && HandleFrame(s, r).Answered?
      && (Rejection(r) == 0 ==> FitsRead(AnswerFields(s, r)))
      && (Arrived(turns) <= HandleFrame(s, r).bytes ==>
            EndsAs(Listen([], turns, until, deadline, id, quantity), ShouldLearn(s, r),
                   InTime(turns, until, deadline) && Arrived(turns) == HandleFrame(s, r).bytes))
  {
    var r := ReadRequest(id, address, quantity);
    ClientRequestDecodes(id, address, quantity);
    EveryFrameIsAnswered(s, r);
    if Rejection(r) != 0 {
      if Arrived(turns) <= HandleFrame(s, r).bytes {
        ExceptionReaches(r, Failure(Rejection(r)), Rejection(r), quantity, turns, until, deadline);
      }
    } else {
      OverrideFits(s, r);
      var fields := AnswerFields(s, r);
      if Arrived(turns) <= HandleFrame(s, r).bytes {
        if fields[Exception].n != 0 {
          ExceptionReaches(r, fields, fields[Exception].n, quantity, turns, until, deadline);
        } else {
          RegistersReach(r, fields, quantity, turns, until, deadline);
        }
      }
    }
  }
}
