/** What the client of the detector learns, and how late is too late. */
module ClientAnswers {
  import opened Options
  import opened Bytes
  import opened Targets
  import opened Modbus
  import opened ModbusAnswers
  import opened TcpService
  import opened TcpTheorems
  import opened TcpAnswers
  import opened DetectorClient

  // ---------------------------------------------------------------------------------------------
  // Time.

  /** All turns so far were in time, and what they brought was not yet enough. */
  predicate StillWaiting(buffer: seq<byte>, turns: seq<Turn>, n: nat, until: real, deadline: real, id: word, quantity: word)
    requires n <= |turns|
  {
    && InTime(turns[..n], until, deadline)
    && forall k | 1 <= k <= n :: Inspect(buffer + Arrived(turns[..k]), id, quantity).Wait?
  }

  lemma ArrivedLater(turns: seq<Turn>, k: nat)
    requires 1 <= k <= |turns| && turns[0].received.Some?
    ensures Arrived(turns[..k]) == turns[0].received.value + Arrived(turns[1..][..k - 1])
  {
    assert turns[..k][1..] == turns[1..][..k - 1];
  }

  lemma WaitingLater(buffer: seq<byte>, turns: seq<Turn>, n: nat, until: real, deadline: real, id: word, quantity: word)
    requires 1 <= n <= |turns| && StillWaiting(buffer, turns, n, until, deadline, id, quantity)
    ensures turns[0].received.Some? && turns[0].received.value != []
    ensures Inspect(buffer + turns[0].received.value, id, quantity).Wait?
    ensures StillWaiting(buffer + turns[0].received.value, turns[1..], n - 1, until, deadline, id, quantity)
  {
    assert turns[..n][0] == turns[0];
    var fed := buffer + turns[0].received.value;
    ArrivedLater(turns, 1);
    assert Arrived(turns[1..][..0]) == [];
    assert buffer + (turns[0].received.value + []) == fed;
    forall k | 1 <= k <= n - 1 ensures Inspect(fed + Arrived(turns[1..][..k]), id, quantity).Wait? {
      ArrivedLater(turns, k + 1);
      assert fed + Arrived(turns[1..][..k]) == buffer + Arrived(turns[..k + 1]);
    }
    assert turns[1..][..n - 1] == turns[..n][1..];
  }

  /** The first turn that is not in time, or brings enough, decides, and in this order: a cancellation, the
      deadline of the operation, that of the exchange or nothing received, the end of the stream, the
      verdict. */
  lemma {:induction false} FirstTurnToEndItDecides(buffer: seq<byte>, turns: seq<Turn>, n: nat, until: real, deadline: real,
                                                   id: word, quantity: word)
    requires n < |turns| && StillWaiting(buffer, turns, n, until, deadline, id, quantity)
    ensures var turn, outcome := turns[n], Listen(buffer, turns, until, deadline, id, quantity);
      && (turn.cancelled ==> outcome == Cancelled)
      && (!turn.cancelled && turn.checked >= deadline ==> outcome == Overdue)
      && (!turn.cancelled && turn.checked < deadline && (turn.asked >= until || turn.received.None?) ==> outcome == TimedOut)
      && (!turn.cancelled && turn.checked < deadline && turn.asked < until && turn.received == Some([]) ==>
            outcome == ClosedByPeer)
      && (InTime(turns[..n + 1], until, deadline) ==>
            var verdict := Inspect(buffer + Arrived(turns[..n + 1]), id, quantity);
            verdict.Verdict? ==> outcome == verdict.outcome)
    decreases n
  {
    if n == 0 {
      if turns[0].received.Some? {
        ArrivedLater(turns, 1);
        assert Arrived(turns[1..][..0]) == [];
        assert buffer + (turns[0].received.value + []) == buffer + turns[0].received.value;
      }
      assert turns[..1][0] == turns[0];
    } else {
      var fed := buffer + turns[0].received.value;
      WaitingLater(buffer, turns, n, until, deadline, id, quantity);
      FirstTurnToEndItDecides(fed, turns[1..], n - 1, until, deadline, id, quantity);
      ArrivedLater(turns, n + 1);
      assert buffer + Arrived(turns[..n + 1]) == fed + Arrived(turns[1..][..n]);
      assert turns[..n][0] == turns[0];
      assert turns[1..][..n] == turns[..n + 1][1..];
    }
  }

  lemma InTimeLater(buffer: seq<byte>, turns: seq<Turn>, n: nat, until: real, deadline: real)
    requires n < |turns| && InTime(turns[..1], until, deadline) && InTime(turns[1..][..n], until, deadline)
    ensures turns[0].received.Some? && InTime(turns[..n + 1], until, deadline)
    ensures buffer + Arrived(turns[..n + 1]) == buffer + turns[0].received.value + Arrived(turns[1..][..n])
  {
    assert turns[..1][0] == turns[0];
    ArrivedLater(turns, n + 1);
    assert turns[1..][..n] == turns[..n + 1][1..];
    assert turns[..n + 1] == [turns[0]] + turns[1..][..n];
  }

  /** So whatever the client learns of the device came in time, part by part. */
  lemma {:induction false} OnlyInTime(buffer: seq<byte>, turns: seq<Turn>, until: real, deadline: real, id: word,
                                      quantity: word)
    returns (n: nat)
    requires !CutShort(Listen(buffer, turns, until, deadline, id, quantity))
    ensures 1 <= n <= |turns| && InTime(turns[..n], until, deadline)
    ensures Inspect(buffer + Arrived(turns[..n]), id, quantity)
            == Verdict(Listen(buffer, turns, until, deadline, id, quantity))
    decreases |turns|
  {
    var fed := buffer + turns[0].received.value;
    assert turns[..1] == [turns[0]];
    if Inspect(fed, id, quantity).Wait? {
      n := OnlyInTime(fed, turns[1..], until, deadline, id, quantity);
      InTimeLater(buffer, turns, n, until, deadline);
      n := n + 1;
    } else {
      n := 1;
      assert turns[1..][..0] == [];
      InTimeLater(buffer, turns, 0, until, deadline);
      assert fed + [] == fed;
    }
  }

  // ---------------------------------------------------------------------------------------------
  // Verdicts.

  /** The header of a frame for this exchange that brings a PDU of this size. */
  predicate Announces(buffer: seq<byte>, id: word, size: nat) {
    1 <= size <= 253 && |buffer| >= 7 && buffer[..7] == Header(id, size + 1, UNIT)
  }

  /** The beginning of such a frame, with more to come.  Less than a header could be anything. */
  ghost predicate Incomplete(buffer: seq<byte>, id: word) {
    |buffer| < 7 || exists size: nat :: Announces(buffer, id, size) && |buffer| < 7 + size
  }

  lemma HeaderIsReadBack(buffer: seq<byte>, id: word, n: nat)
    requires Announces(buffer, id, n)
    ensures Word(buffer[0], buffer[1]) == id && Word(buffer[2], buffer[3]) == 0
    ensures Word(buffer[4], buffer[5]) == n + 1 && buffer[6] == UNIT
  {
    WordRoundTrip(id, 0, 0);
    WordRoundTrip(n + 1, 0, 0);
    assert buffer[..7][0] == buffer[0] && buffer[..7][1] == buffer[1] && buffer[..7][2] == buffer[2];
    assert buffer[..7][3] == buffer[3] && buffer[..7][4] == buffer[4] && buffer[..7][5] == buffer[5];
    assert buffer[..7][6] == buffer[6];
  }

  /** The client waits for more exactly while what it has is incomplete: bytes that belong to another
      exchange are refused as soon as the header is there. */
  lemma WaitsWhileIncomplete(buffer: seq<byte>, id: word, quantity: word)
    ensures Inspect(buffer, id, quantity).Wait? <==> Incomplete(buffer, id)
  {
    if |buffer| >= 7 {
      var length := Word(buffer[4], buffer[5]);
      if Inspect(buffer, id, quantity).Wait? {
        HeaderIsPrefix(buffer, id, length);
        assert Announces(buffer, id, length - 1);
      }
      if size: nat :| Announces(buffer, id, size) && |buffer| < 7 + size {
        HeaderIsReadBack(buffer, id, size);
      }
    }
  }

  lemma ExceptionPdu(pdu: seq<byte>, quantity: word, code: int)
    requires pdu != []
    ensures InspectPdu(pdu, quantity) == Verdict(DeviceError(code)) <==> 1 <= code < 256 && pdu == [EXCEPTION_REPLY, code]
  {
  }

  /** An exception is read out of nothing but the one frame that carries it; exception 0 is none. */
  lemma OnlyItsExceptionIsAccepted(buffer: seq<byte>, id: word, quantity: word, code: int)
    ensures Inspect(buffer, id, quantity) == Verdict(DeviceError(code))
            <==> 1 <= code < 256 && buffer == Enclose(id, UNIT, [EXCEPTION_REPLY, code])
  {
    if 1 <= code < 256 && buffer == Enclose(id, UNIT, [EXCEPTION_REPLY, code]) {
      ItsFrameIsAccepted(buffer, id, quantity, [EXCEPTION_REPLY, code]);
      ExceptionPdu([EXCEPTION_REPLY, code], quantity, code);
    } else if Inspect(buffer, id, quantity) == Verdict(DeviceError(code)) {
      AcceptedHeader(buffer, id, quantity);
      ExceptionPdu(buffer[7..], quantity, code);
    }
  }

  /** Everything else is a protocol error. */
  lemma OtherwiseAProtocolError(buffer: seq<byte>, id: word, quantity: word)
    requires Inspect(buffer, id, quantity).Verdict?
    ensures var outcome := Inspect(buffer, id, quantity).outcome;
      outcome.Registers? || outcome.DeviceError? || outcome == ProtocolError
  {
  }

  // ---------------------------------------------------------------------------------------------
  // Registers.

  lemma ClientAsks(id: word, address: word, quantity: word)
    ensures ReadRequest(id, address, quantity) == ReadOf(id, UNIT, READ_INPUT, address, quantity)
  {
  }

  lemma NoOverride(s: Server, target: string, fields: Fields)
    requires Untouched(s, target)
    ensures fields + Override(s, target) == fields
  {
  }

  lemma RegistersAreLearnt(s: Server, r: Request, values: seq<word>)
    requires |r.data| >= 4 && Rejection(r) == 0 && AnswerFields(s, r) == Reading(values)
    ensures FitsRead(AnswerFields(s, r)) && ShouldLearn(s, r) == DetectorClient.Registers(values)
  {
    NumbersAreRegisters(values);
  }

  lemma ReadIsLearnt(s: Server, r: Request, p: Parts)
    requires ServerInvariant(s) && r.code == 4 && |r.data| >= 4 && p == PartsOf(r) && Rejection(r) == 0
    requires Untouched(s, Print(p))
    ensures FitsRead(AnswerFields(s, r))
    ensures ShouldLearn(s, r) == DetectorClient.Registers(Shown(s.holding, 4, p.address, p.quantity))
  {
    ReadResponse(s.holding, r, p);
    NoOverride(s, Print(p), Response(s.holding, r));
    RegistersAreLearnt(s, r, Shown(s.holding, 4, p.address, p.quantity));
  }

  /** With nothing injected a client is told the input registers at the places it asks for. */
  lemma ClientReads(s: Server, id: word, address: word, quantity: word, turns: seq<Turn>, until: real, deadline: real)
    requires ServerInvariant(s) && 1 <= quantity && address + quantity <= 3
    requires Untouched(s, Print(Parts(4, address, quantity)))
    ensures var r := ReadRequest(id, address, quantity);
      HandleFrame(s, r).Answered?
      && (Arrived(turns) <= HandleFrame(s, r).bytes ==>
            EndsAs(Listen([], turns, until, deadline, id, quantity),
                   DetectorClient.Registers(Shown(s.holding, 4, address, quantity)),
                   InTime(turns, until, deadline) && Arrived(turns) == HandleFrame(s, r).bytes))
  {
    var r := ReadRequest(id, address, quantity);
    ClientAsks(id, address, quantity);
    PartsOfRead(id, UNIT, READ_INPUT, address, quantity);
    ReadIsRefused(id, UNIT, READ_INPUT, address, quantity);
    ReadIsLearnt(s, r, Parts(4, address, quantity));
    ExchangeIsFaithful(s, id, address, quantity, turns, until, deadline);
  }

  /** Asked for status and readiness, that is 0 and the enable register; asked for the measurement, that is
      the measurement while the device is enabled, and 0 otherwise. */
  lemma WhatTheClientReads(holding: Registers)
    requires GoodRegisters(holding)
    ensures Shown(holding, 4, 0, 2) == [0, holding[0]]
    ensures Shown(holding, 4, 2, 1) == [if holding[0] == 1 then holding[1] else 0]
  {
    var status, measured := Shown(holding, 4, 0, 2), Shown(holding, 4, 2, 1);
    ShownAt(holding, 4, 0, 2, 0);
    ShownAt(holding, 4, 0, 2, 1);
    ShownAt(holding, 4, 2, 1, 0);
    assert status == [status[0], status[1]] && measured == [measured[0]];
  }
}
