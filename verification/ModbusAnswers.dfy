/** What the device answers to each kind of request, register by register and byte by byte. */
module ModbusAnswers {
  import opened Options
  import opened Bytes
  import opened Targets
  import opened Modbus

  // ---------------------------------------------------------------------------------------------
  // Requests as a client builds them.

  function Range(address: word, quantity: word): seq<byte> {
    [High(address), Low(address), High(quantity), Low(quantity)]
  }

  function ReadOf(id: word, unit: byte, code: byte, address: word, quantity: word): Request {
    Request(id, unit, code, Range(address, quantity))
  }

  function WriteOf(id: word, unit: byte, address: word, value: word): Request {
    Request(id, unit, 6, Range(address, value))
  }

  function WriteManyOf(id: word, unit: byte, address: word, values: seq<word>): Request
    requires |values| <= 123
  {
    Request(id, unit, 16, Range(address, |values|) + [2 * |values|] + WordsBytes(values))
  }

  lemma RangeIsRead(address: word, quantity: word, more: seq<byte>)
    ensures var data := Range(address, quantity) + more;
      Word(data[0], data[1]) == address && Word(data[2], data[3]) == quantity
  {
    WordRoundTrip(address, 0, 0);
    WordRoundTrip(quantity, 0, 0);
  }

  // ---------------------------------------------------------------------------------------------
  // Reads.

  /** The reference register map: two holding registers, the enable register and the measurement; three
      input registers, a status that is always 0, whether the device is enabled, and the measurement while
      it is. */
  function RegisterAt(holding: Registers, code: byte, i: nat): word {
    if code == 3 then (if i == 0 then holding[0] else holding[1])
    else if i == 0 then 0
    else if i == 1 then holding[0]
    else if holding[0] == 1 then holding[1] else 0
  }

  function Shown(holding: Registers, code: byte, address: nat, quantity: nat): (values: seq<word>)
    ensures |values| == quantity
    decreases quantity
  {
    if quantity == 0 then [] else [RegisterAt(holding, code, address)] + Shown(holding, code, address + 1, quantity - 1)
  }

  lemma {:induction false} ShownAt(holding: Registers, code: byte, address: nat, quantity: nat, k: nat)
    requires k < quantity
    ensures Shown(holding, code, address, quantity)[k] == RegisterAt(holding, code, address + k)
    decreases quantity
  {
    if k > 0 {
      ShownAt(holding, code, address + 1, quantity - 1, k - 1);
    }
  }

  lemma SliceIsShown(holding: Registers, code: byte, registers: seq<word>, address: nat, quantity: nat)
    requires address + quantity <= |registers|
    requires forall i | 0 <= i < |registers| :: registers[i] == RegisterAt(holding, code, i)
    ensures registers[address..address + quantity] == Shown(holding, code, address, quantity)
  {
    forall k | 0 <= k < quantity
      ensures registers[address..address + quantity][k] == Shown(holding, code, address, quantity)[k]
    {
      ShownAt(holding, code, address, quantity, k);
    }
  }

  lemma PartsOfRead(id: word, unit: byte, code: byte, address: word, quantity: word)
    requires code != 6
    ensures PartsOf(ReadOf(id, unit, code, address, quantity)) == Parts(code, address, quantity)
  {
    RangeIsRead(address, quantity, []);
    assert Range(address, quantity) + [] == Range(address, quantity);
  }

  lemma ReadIsRefused(id: word, unit: byte, code: byte, address: word, quantity: word)
    requires code in {3, 4}
    ensures Rejection(ReadOf(id, unit, code, address, quantity)) ==
      if quantity < 1 || 125 < quantity then 3 else if address + quantity > (if code == 3 then 2 else 3) then 2 else 0
  {
    PartsOfRead(id, unit, code, address, quantity);
  }

  lemma MapIsShown(holding: Registers, code: byte)
    requires GoodRegisters(holding) && code in {3, 4}
    ensures var registers := if code == 3 then holding else InputRegisters(holding);
      && |registers| == (if code == 3 then 2 else 3)
      && forall i | 0 <= i < |registers| :: registers[i] == RegisterAt(holding, code, i)
  {
  }

  lemma ReadResponse(holding: Registers, r: Request, p: Parts)
    requires GoodRegisters(holding) && r.code in {3, 4} && |r.data| >= 4 && p == PartsOf(r)
    ensures Written(holding, r) == holding
    ensures Response(holding, r) ==
      if Rejection(r) != 0 then Failure(Rejection(r)) else Reading(Shown(holding, r.code, p.address, p.quantity))
  {
    MapIsShown(holding, r.code);
    if Rejection(r) == 0 {
      SliceIsShown(holding, r.code, if r.code == 3 then holding else InputRegisters(holding), p.address, p.quantity);
    }
  }

  /** A read answers the registers at its places, and nothing is written.  It is refused for its quantity
      first, then for reaching beyond the map. */
  lemma ReadAnswers(holding: Registers, id: word, unit: byte, code: byte, address: word, quantity: word)
    requires GoodRegisters(holding) && code in {3, 4}
    ensures var r := ReadOf(id, unit, code, address, quantity);
      && Written(holding, r) == holding
      && Response(holding, r) ==
           if quantity < 1 || 125 < quantity then Failure(3)
           else if address + quantity > (if code == 3 then 2 else 3) then Failure(2)
           else Reading(Shown(holding, code, address, quantity))
  {
    PartsOfRead(id, unit, code, address, quantity);
    ReadIsRefused(id, unit, code, address, quantity);
    ReadResponse(holding, ReadOf(id, unit, code, address, quantity), Parts(code, address, quantity));
  }

  // ---------------------------------------------------------------------------------------------
  // Writes.

  lemma OverwrittenAt(holding: Registers, address: nat, values: seq<word>, i: nat)
    requires address + |values| <= 2 && i < 2
    ensures Overwritten(holding, address, values)[i] ==
      if address <= i < address + |values| then values[i - address] else holding[i]
  {
  }

  lemma WriteResponse(holding: Registers, r: Request, p: Parts, values: seq<word>)
    requires r.code in {6, 16} && |r.data| >= 4 && p == PartsOf(r)
    requires Rejection(r) == 0 ==> values == NewValues(r)
    ensures Rejection(r) != 0 ==> Response(holding, r) == Failure(Rejection(r)) && Written(holding, r) == holding
    ensures Rejection(r) == 0 ==>
      && Response(holding, r) == WRITTEN
      && forall i | 0 <= i < 2 ::
           Written(holding, r)[i] == if p.address <= i < p.address + |values| then values[i - p.address] else holding[i]
  {
    if Rejection(r) == 0 {
      OverwrittenAt(holding, p.address, values, 0);
      OverwrittenAt(holding, p.address, values, 1);
    }
  }

  /** Why a write of these values is refused, or 0. */
  function WriteRefusal(address: nat, values: seq<word>): int {
    if values == [] then 3
    else if address + |values| > 2 then 2
    else if address == 0 && values[0] > 1 then 3
    else 0
  }

  /** All of a write, or nothing but its refusal. */
  predicate WriteOutcome(holding: Registers, r: Request, address: nat, values: seq<word>) {
    var refusal := WriteRefusal(address, values);
    if refusal != 0 then Response(holding, r) == Failure(refusal) && Written(holding, r) == holding
    else
      && Response(holding, r) == WRITTEN
      && forall i | 0 <= i < 2 ::
           Written(holding, r)[i] == if address <= i < address + |values| then values[i - address] else holding[i]
  }

  lemma OneIsRefused(r: Request, address: word, value: word)
    requires r.code == 6 && |r.data| == 4 && Word(r.data[0], r.data[1]) == address && Word(r.data[2], r.data[3]) == value
    ensures PartsOf(r) == Parts(6, address, 1) && NewValues(r) == [value]
    ensures Rejection(r) == WriteRefusal(address, [value])
  {
  }

  lemma WrittenAsRefused(holding: Registers, r: Request, address: word, values: seq<word>)
    requires r.code in {6, 16} && |r.data| >= 4
    requires PartsOf(r).address == address && Rejection(r) == WriteRefusal(address, values)
    requires Rejection(r) == 0 ==> NewValues(r) == values
    ensures WriteOutcome(holding, r, address, values)
  {
    WriteResponse(holding, r, PartsOf(r), values);
  }

  /** A single write sets its register and no other; the enable register takes 0 and 1 only. */
  lemma WriteAnswers(holding: Registers, id: word, unit: byte, address: word, value: word)
    ensures WriteOutcome(holding, WriteOf(id, unit, address, value), address, [value])
  {
    var r := WriteOf(id, unit, address, value);
    RangeIsRead(address, value, []);
    assert r.data + [] == r.data;
    OneIsRefused(r, address, value);
    WrittenAsRefused(holding, r, address, [value]);
  }

  lemma PartsOfWrite(id: word, unit: byte, address: word, values: seq<word>)
    requires |values| <= 123
    ensures var r := WriteManyOf(id, unit, address, values);
      && PartsOf(r) == Parts(16, address, |values|) && |r.data| == 5 + 2 * |values| && r.data[4] == 2 * |values|
      && r.data[5..] == WordsBytes(values)
  {
    RangeIsRead(address, |values|, [2 * |values|] + WordsBytes(values));
    var r := WriteManyOf(id, unit, address, values);
    assert r.data == Range(address, |values|) + ([2 * |values|] + WordsBytes(values));
  }

  lemma ManyIsRefused(r: Request, address: word, values: seq<word>)
    requires |values| <= 123 && r.code == 16 && |r.data| == 5 + 2 * |values| && r.data[4] == 2 * |values|
    requires PartsOf(r) == Parts(16, address, |values|) && Words(r.data[5..]) == values
    ensures Rejection(r) == WriteRefusal(address, values)
    ensures NewValues(r) == values
  {
  }

  /** A multiple write sets the registers from its address on, all or none. */
  lemma WriteManyAnswers(holding: Registers, id: word, unit: byte, address: word, values: seq<word>)
    requires |values| <= 123
    ensures WriteOutcome(holding, WriteManyOf(id, unit, address, values), address, values)
  {
    var r := WriteManyOf(id, unit, address, values);
    PartsOfWrite(id, unit, address, values);
    WordsRoundTrip(values);
    ManyIsRefused(r, address, values);
    WrittenAsRefused(holding, r, address, values);
  }

  // ---------------------------------------------------------------------------------------------
  // Everything else.

  /** The length and the byte count of a multiple write agree with its quantity. */
  predicate ProperWrite(data: seq<byte>) {
    |data| >= 5 && var n := Word(data[2], data[3]); n <= 123 && |data| == 5 + 2 * n && data[4] == 2 * n
  }

  /** Other functions are refused as such; a request of a known function that is not one of the above in
      length is refused for its data. */
  lemma OthersAreRefused(holding: Registers, r: Request)
    ensures r.code !in {3, 4, 6, 16} ==> Response(holding, r) == Failure(1)
    ensures r.code in {3, 4, 6} && |r.data| != 4 ==> Response(holding, r) == Failure(3)
    ensures r.code == 16 && !ProperWrite(r.data) ==> Response(holding, r) == Failure(3)
    ensures Rejection(r) != 0 ==> Written(holding, r) == holding
  {
  }

  lemma ThreeInputs(holding: Registers)
    requires GoodRegisters(holding)
    ensures Shown(holding, 4, 0, 3) == [0, holding[0], if holding[0] == 1 then holding[1] else 0]
  {
    var shown := Shown(holding, 4, 0, 3);
    ShownAt(holding, 4, 0, 3, 0);
    ShownAt(holding, 4, 0, 3, 1);
    ShownAt(holding, 4, 0, 3, 2);
    assert shown == [shown[0], shown[1], shown[2]];
  }

  /** A read of all input registers shows the status, which is 0, the enable register, and the measurement
      while that is 1. */
  lemma InputsShow(holding: Registers, r: Request)
    requires GoodRegisters(holding) && r.code == 4 && r.data == [0, 0, 0, 3]
    ensures Response(holding, r) == Reading([0, holding[0], if holding[0] == 1 then holding[1] else 0])
  {
    assert r == ReadOf(r.id, r.unit, 4, 0, 3);
    ReadAnswers(holding, r.id, r.unit, 4, 0, 3);
    ThreeInputs(holding);
  }

  lemma BothAreWritten(holding: Registers, r: Request, values: Registers)
    requires r.code == 16 && r.data == [0, 0, 0, 2, 4] + WordsBytes(values) && values[0] <= 1
    ensures Written(holding, r) == values
  {
    assert r == WriteManyOf(r.id, r.unit, 0, values);
    WriteManyAnswers(holding, r.id, r.unit, 0, values);
  }

  /** So after both holding registers have been written it shows what was written. */
  lemma InputsAfterWrite(holding: Registers, write: Request, after: Registers, read: Request, values: Registers)
    requires write.code == 16 && write.data == [0, 0, 0, 2, 4] + WordsBytes(values) && values[0] <= 1
    requires after == Written(holding, write) && read.code == 4 && read.data == [0, 0, 0, 3]
    ensures Response(after, read) == Reading([0, values[0], if values[0] == 1 then values[1] else 0])
  {
    BothAreWritten(holding, write, values);
    InputsShow(values, read);
  }

  // ---------------------------------------------------------------------------------------------
  // The bytes of an answer.

  /** The header repeats transaction and unit, and counts what follows the length field. */
  lemma HeaderIsWritten(id: word, unit: byte, pdu: seq<byte>)
    requires |pdu| <= 253
    ensures Enclose(id, unit, pdu) ==
      [id / 256, id % 256, 0, 0, (|pdu| + 1) / 256, (|pdu| + 1) % 256, unit] + pdu
  {
  }

  lemma ExceptionIsWritten(r: Request, exception: int)
    requires 1 <= exception <= 4
    ensures EncodeResponse(r, Failure(exception)) ==
      Some(Enclose(r.id, r.unit, [if r.code < 128 then r.code + 128 else r.code, exception]))
  {
  }

  lemma ItemsAreWritten(r: Request, fields: Fields, items: seq<Json>, values: seq<word>)
    requires r.code in {3, 4} && |items| <= 125 && ExceptionOf(fields) == Number(0)
    requires RegisterValues in fields && fields[RegisterValues] == List(items)
    requires (forall i | 0 <= i < |items| :: IsRegister(items[i])) && RegistersOf(items) == values
    ensures ResponsePdu(r, fields) == Some([r.code, 2 * |values|] + WordsBytes(values))
  {
    assert |values| == |items|;
  }

  lemma RegistersAreWritten(r: Request, values: seq<word>)
    requires r.code in {3, 4} && |values| <= 125
    ensures EncodeResponse(r, Reading(values)) == Some(Enclose(r.id, r.unit, [r.code, 2 * |values|] + WordsBytes(values)))
  {
    NumbersAreRegisters(values);
    ItemsAreWritten(r, Reading(values), Numbers(values), values);
    assert EncodeResponse(r, Reading(values)) == Some(Enclose(r.id, r.unit, ResponsePdu(r, Reading(values)).value));
  }

  lemma EchoIsWritten(r: Request)
    requires r.code in {6, 16} && |r.data| >= 4
    ensures EncodeResponse(r, WRITTEN) == Some(Enclose(r.id, r.unit, [r.code] + r.data[..4]))
  {
    assert |r.data| == 4 ==> r.data[..4] == r.data;
  }

  /** A read answers its function, the number of bytes and the registers; a write its first four bytes; an
      exception the function with the top bit set, and the code. */
  lemma AnswersAreWritten(r: Request, values: seq<word>, exception: int)
    requires 1 <= exception <= 4 && |values| <= 125
    ensures EncodeResponse(r, Failure(exception)) ==
      Some(Enclose(r.id, r.unit, [if r.code < 128 then r.code + 128 else r.code, exception]))
    ensures r.code in {3, 4} ==>
      EncodeResponse(r, Reading(values)) == Some(Enclose(r.id, r.unit, [r.code, 2 * |values|] + WordsBytes(values)))
    ensures r.code in {6, 16} && |r.data| >= 4 ==>
      EncodeResponse(r, WRITTEN) == Some(Enclose(r.id, r.unit, [r.code] + r.data[..4]))
  {
    ExceptionIsWritten(r, exception);
    if r.code in {3, 4} {
      RegistersAreWritten(r, values);
    }
    if r.code in {6, 16} && |r.data| >= 4 {
      EchoIsWritten(r);
    }
  }

  // ---------------------------------------------------------------------------------------------
  // Bytes that are no request.

  /** Protocol 0 and a length of 2 to 254, in network order. */
  predicate HeaderOfRequest(buffer: seq<byte>)
    requires |buffer| >= 6
  {
    buffer[2] == 0 && buffer[3] == 0 && buffer[4] == 0 && 2 <= buffer[5] <= 254
  }

  /** Too short for a header, or for what its header announces. */
  predicate Unfinished(buffer: seq<byte>) {
    |buffer| < 6 || (HeaderOfRequest(buffer) && |buffer| - 6 < buffer[5])
  }

  /** Long enough for a header, and with one that no request has. */
  predicate Hopeless(buffer: seq<byte>) {
    |buffer| >= 6 && !HeaderOfRequest(buffer)
  }

  lemma SmallWords(high: byte, low: byte)
    ensures Word(high, low) == 0 <==> high == 0 && low == 0
    ensures 2 <= Word(high, low) <= 254 <==> high == 0 && 2 <= low <= 254
    ensures high == 0 ==> Word(high, low) == low
  {
  }

  /** A stream is given up, at the sixth byte, exactly for its header; with a good one the device waits until
      the length it announces has arrived. */
  lemma HeaderDecides(buffer: seq<byte>)
    ensures DecodeRequest(buffer).Malformed? <==> Hopeless(buffer)
    ensures DecodeRequest(buffer).Incomplete? <==> Unfinished(buffer)
  {
    if |buffer| >= 6 {
      SmallWords(buffer[2], buffer[3]);
      SmallWords(buffer[4], buffer[5]);
    }
  }
}
