/** The Modbus TCP mapping of the reference detector: frames, response fields and registers. */
module Modbus {
  import opened Options
  import opened Bytes
  import opened Targets

  /** A decoded request: MBAP transaction and unit, PDU function code and data. */
  datatype Request = Request(id: word, unit: byte, code: byte, data: seq<byte>)

  datatype Decoded = Incomplete | Malformed | Frame(request: Request, used: nat)

  /** Dynamically typed values, as response fields and sequence entries carry them. */
  datatype Json = Number(n: int) | List(items: seq<Json>) | OtherJson

  datatype FieldName = Exception | RegisterValues | OtherField(name: string)

  type Fields = map<FieldName, Json>

  // ---------------------------------------------------------------------------------------------
  // Frames.

  function DecodeRequest(buffer: seq<byte>): Decoded {
    if |buffer| < 6 then Incomplete
    else
      var transaction := Word(buffer[0], buffer[1]);
      var protocol := Word(buffer[2], buffer[3]);
      var length := Word(buffer[4], buffer[5]);
      if protocol != 0 || !(2 <= length <= 254) then Malformed
      else if |buffer| < 6 + length then Incomplete
      else Frame(Request(transaction, buffer[6], buffer[7], buffer[8..6 + length]), 6 + length)
  }

  function Header(id: word, length: word, unit: byte): seq<byte> {
    [High(id), Low(id), 0, 0, High(length), Low(length), unit]
  }

  /** The MBAP header and unit, followed by the PDU. */
  function Enclose(id: word, unit: byte, pdu: seq<byte>): (frame: seq<byte>)
    requires |pdu| + 1 < 65536
    ensures |frame| == 7 + |pdu|
  {
    Header(id, |pdu| + 1, unit) + pdu
  }

  function EncodeRequest(r: Request): seq<byte>
    requires |r.data| <= 252
  {
    Enclose(r.id, r.unit, [r.code] + r.data)
  }

  lemma EncloseLayout(id: word, unit: byte, pdu: seq<byte>, rest: seq<byte>)
    requires |pdu| + 1 < 65536
    ensures var stream := Enclose(id, unit, pdu) + rest;
      && Word(stream[0], stream[1]) == id && Word(stream[2], stream[3]) == 0
      && Word(stream[4], stream[5]) == |pdu| + 1 && stream[6] == unit
      && stream[7..7 + |pdu|] == pdu && stream[7 + |pdu|..] == rest
  {
    WordRoundTrip(id, 0, 0);
    WordRoundTrip(|pdu| + 1, 0, 0);
  }

  lemma FirstByte(stream: seq<byte>, code: byte, data: seq<byte>)
    requires 8 + |data| <= |stream| && stream[7..8 + |data|] == [code] + data
    ensures stream[7] == code && stream[8..8 + |data|] == data
  {
    var pdu := stream[7..8 + |data|];
    assert pdu[0] == stream[7] && pdu[1..] == data;
    assert stream[8..8 + |data|] == pdu[1..];
  }

  lemma DecodedFields(stream: seq<byte>, r: Request)
    requires |r.data| <= 252 && 8 + |r.data| <= |stream|
    requires Word(stream[0], stream[1]) == r.id && Word(stream[2], stream[3]) == 0
    requires Word(stream[4], stream[5]) == |r.data| + 2 && stream[6] == r.unit && stream[7] == r.code
    requires stream[8..8 + |r.data|] == r.data
    ensures DecodeRequest(stream) == Frame(r, 8 + |r.data|)
  {
  }

  /** Decoding undoes encoding, whatever follows on the stream. */
  lemma DecodeEncoded(r: Request, rest: seq<byte>)
    requires |r.data| <= 252
    ensures DecodeRequest(EncodeRequest(r) + rest) == Frame(r, 8 + |r.data|)
  {
    EncloseLayout(r.id, r.unit, [r.code] + r.data, rest);
    FirstByte(EncodeRequest(r) + rest, r.code, r.data);
    DecodedFields(EncodeRequest(r) + rest, r);
  }

  lemma HeaderBytes(w: word, high: byte, low: byte)
    requires Word(high, low) == w
    ensures High(w) == high && Low(w) == low
  {
    WordRoundTrip(w, high, low);
  }

  lemma HeaderIsPrefix(buffer: seq<byte>, id: word, length: word)
    requires |buffer| >= 7 && Word(buffer[2], buffer[3]) == 0
    requires Word(buffer[0], buffer[1]) == id && Word(buffer[4], buffer[5]) == length
    ensures buffer[..7] == Header(id, length, buffer[6])
  {
    HeaderBytes(id, buffer[0], buffer[1]);
    HeaderBytes(length, buffer[4], buffer[5]);
  }

  lemma Reassemble(buffer: seq<byte>, id: word, length: word)
    requires 2 <= length <= 254 && 6 + length <= |buffer| && buffer[..7] == Header(id, length, buffer[6])
    ensures buffer[..6 + length] == EncodeRequest(Request(id, buffer[6], buffer[7], buffer[8..6 + length]))
  {
    var pdu := [buffer[7]] + buffer[8..6 + length];
    assert |pdu| + 1 == length;
    assert buffer[..6 + length] == buffer[..7] + pdu;
  }

  /** And the only bytes that decode to a request are its encoding. */
  lemma EncodeDecoded(buffer: seq<byte>)
    requires DecodeRequest(buffer).Frame?
    ensures var d := DecodeRequest(buffer);
      && 8 <= d.used <= |buffer| && d.used <= 260 && |d.request.data| == d.used - 8
      && buffer[..d.used] == EncodeRequest(d.request)
  {
    var id, length := Word(buffer[0], buffer[1]), Word(buffer[4], buffer[5]);
    HeaderIsPrefix(buffer, id, length);
    Reassemble(buffer, id, length);
  }

  /** More bytes never change what the bytes so far decided. */
  lemma DecodingIsStable(buffer: seq<byte>, more: seq<byte>)
    requires !DecodeRequest(buffer).Incomplete?
    ensures DecodeRequest(buffer + more) == DecodeRequest(buffer)
  {
    if DecodeRequest(buffer).Frame? {
      var used := DecodeRequest(buffer).used;
      assert (buffer + more)[8..used] == buffer[8..used];
    }
  }

  // ---------------------------------------------------------------------------------------------
  // Response fields.

  predicate IsRegister(v: Json) {
    v.Number? && 0 <= v.n < 65536
  }

  predicate IsException(v: Json) {
    v.Number? && 0 <= v.n <= 4
  }

  function Expected(code: nat): set<FieldName> {
    if code in {3, 4} then {Exception, RegisterValues} else {Exception}
  }

  predicate FitsParts(p: Parts, fields: Fields) {
    && fields.Keys == Expected(p.code)
    && IsException(fields[Exception])
    && (p.code in {3, 4} ==>
          var registers := fields[RegisterValues];
          registers.List? && |registers.items| == p.quantity
          && forall i | 0 <= i < |registers.items| :: IsRegister(registers.items[i]))
  }

  /** Whether `validate_fields` passes: false stands for its exception. */
  predicate ValidFields(target: string, fields: Fields) {
    TargetParts(target).Some? && FitsParts(TargetParts(target).value, fields)
  }

  function Numbers(values: seq<word>): seq<Json> {
    seq(|values|, i requires 0 <= i < |values| => Number(values[i]))
  }

  function RegistersOf(items: seq<Json>): seq<word>
    requires forall i | 0 <= i < |items| :: IsRegister(items[i])
  {
    seq(|items|, i requires 0 <= i < |items| && IsRegister(items[i]) => items[i].n)
  }

  lemma NumbersAreRegisters(values: seq<word>)
    ensures forall i | 0 <= i < |values| :: IsRegister(Numbers(values)[i])
    ensures RegistersOf(Numbers(values)) == values
  {
  }

  function ExceptionOf(fields: Fields): Json {
    if Exception in fields then fields[Exception] else Number(0)
  }

  /** Setting the top bit of a function code marks an exception response. */
  function Marked(code: byte): byte {
    if code < 128 then code + 128 else code
  }

  /** The response PDU, or `None` where packing the fields raises. */
  function ResponsePdu(r: Request, fields: Fields): Option<seq<byte>> {
    var exception := ExceptionOf(fields);
    if exception != Number(0) then
      if exception.Number? && 0 <= exception.n < 256 then Some([Marked(r.code), exception.n]) else None
    else if r.code in {3, 4} then
      if RegisterValues !in fields || !fields[RegisterValues].List? then None
      else
        var items := fields[RegisterValues].items;
        if |items| <= 127 && forall i | 0 <= i < |items| :: IsRegister(items[i]) then
          Some([r.code, 2 * |items|] + WordsBytes(RegistersOf(items)))
        else None
    else Some([r.code] + if |r.data| <= 4 then r.data else r.data[..4])
  }

  function EncodeResponse(r: Request, fields: Fields): Option<seq<byte>> {
    var pdu := ResponsePdu(r, fields);
    if pdu.None? then None else Some(Enclose(r.id, r.unit, pdu.value))
  }

  function PartsOf(r: Request): Parts
    requires |r.data| >= 4
  {
    var address := Word(r.data[0], r.data[1]);
    Parts(r.code, address, if r.code == 6 then 1 else Word(r.data[2], r.data[3]))
  }

  /** The sequence a normal response draws from; `None` for a natural exception. */
  function SequenceTarget(r: Request, normal: Fields): Option<string>
    requires ExceptionOf(normal) == Number(0) ==> |r.data| >= 4
  {
    if ExceptionOf(normal) != Number(0) then None else Some(Print(PartsOf(r)))
  }

  // ---------------------------------------------------------------------------------------------
  // Registers.

  /** The two holding registers: detection enabled, and the reference measurement. */
  type Registers = values: seq<word> | |values| == 2 witness [1, 100]

  const INITIAL: Registers := [1, 100]

  function Failure(code: int): Fields {
    map[Exception := Number(code)]
  }

  function Reading(values: seq<word>): Fields {
    map[Exception := Number(0), RegisterValues := List(Numbers(values))]
  }

  const WRITTEN: Fields := map[Exception := Number(0)]

  function Baseline(p: Parts): Fields {
    if p.code in {3, 4} then Reading(seq(p.quantity, _ => 0)) else WRITTEN
  }

  function InputRegisters(holding: Registers): seq<word> {
    [0, holding[0], if holding[0] != 0 then holding[1] else 0]
  }

  /** The values a write request carries. */
  function NewValues(r: Request): (values: seq<word>)
    requires |r.data| >= 4 && r.code in {6, 16}
    requires r.code == 16 ==> |r.data| == 5 + 2 * PartsOf(r).quantity
    ensures |values| == PartsOf(r).quantity
  {
    if r.code == 16 then Words(r.data[5..]) else [Word(r.data[2], r.data[3])]
  }

  /** Why a request cannot be served, as a Modbus exception code; 0 if it can. */
  function Rejection(r: Request): int {
    if r.code !in {3, 4, 6, 16} then 1
    else if |r.data| < 4 then 3
    else
      var p := PartsOf(r);
      if !(1 <= p.quantity <= if r.code == 16 then 123 else 125) then 3
      else if r.code == 16 && (|r.data| != 5 + 2 * p.quantity || r.data[4] != 2 * p.quantity) then 3
      else if r.code != 16 && |r.data| != 4 then 3
      else if p.address + p.quantity > RegisterCount(r.code) then 2
      else if r.code in {6, 16} && p.address == 0 && NewValues(r)[0] !in {0, 1} then 3
      else 0
  }

  function Overwritten(holding: seq<word>, address: nat, values: seq<word>): (after: seq<word>)
    requires address + |values| <= |holding|
    ensures |after| == |holding|
  {
    holding[..address] + values + holding[address + |values|..]
  }

  function Written(holding: Registers, r: Request): Registers {
    if Rejection(r) == 0 && r.code in {6, 16} then Overwritten(holding, PartsOf(r).address, NewValues(r))
    else holding
  }

  function Response(holding: Registers, r: Request): Fields {
    if Rejection(r) != 0 then Failure(Rejection(r))
    else if r.code in {6, 16} then WRITTEN
    else
      var registers := if r.code == 3 then holding else InputRegisters(holding);
      var p := PartsOf(r);
      Reading(registers[p.address..p.address + p.quantity])
  }

  class DetectorRegisters {
    var holding: Registers

    constructor ()
      ensures holding == INITIAL
    {
      holding := INITIAL;
    }

    method Reset()
      modifies this
      ensures holding == INITIAL
    {
      holding := INITIAL;
    }

    /** The exception code of a refused request; for any other, 0, its range and the values it carries. */
    method Check(r: Request) returns (exception: int, address: nat, quantity: nat, values: seq<word>)
      ensures exception == Rejection(r)
      ensures exception == 0 ==>
        |r.data| >= 4 && address == PartsOf(r).address && quantity == PartsOf(r).quantity
        && (r.code in {6, 16} ==> values == NewValues(r))
    {
      exception, address, quantity, values := 3, 0, 0, [];
      if r.code !in {3, 4, 6, 16} {
        exception := 1;
        return;
      }
      if |r.data| < 4 {
        return;
      }
      address := Word(r.data[0], r.data[1]);
      var value := Word(r.data[2], r.data[3]);
      quantity := if r.code == 6 then 1 else value;
      var limit := if r.code == 16 then 123 else 125;
      if !(1 <= quantity <= limit) {
        return;
      }
      if r.code == 16 {
        if |r.data| != 5 + quantity * 2 || r.data[4] != quantity * 2 {
          return;
        }
        values := Words(r.data[5..]);
      } else {
        if |r.data| != 4 {
          return;
        }
        values := [value];
      }
      var size := if r.code == 4 then 3 else 2;
      if address + quantity > size {
        exception := 2;
        return;
      }
      if r.code in {6, 16} && address == 0 && values[0] !in {0, 1} {
        return;
      }
      exception := 0;
    }

    method Respond(r: Request) returns (fields: Fields)
      modifies this
      ensures fields == Response(old(holding), r)
      ensures holding == Written(old(holding), r)
    {
      var exception, address, quantity, values := Check(r);
      if exception != 0 {
        return Failure(exception);
      }
      if r.code in {6, 16} {
        holding := holding[..address] + values + holding[address + quantity..];
        return WRITTEN;
      }
      var registers := if r.code == 3 then holding else InputRegisters(holding);
      fields := Reading(registers[address..address + quantity]);
    }
  }

  // ---------------------------------------------------------------------------------------------
  // What the device promises.

  ghost predicate GoodRegisters(holding: Registers) {
    holding[0] in {0, 1}
  }

  /** A write either changes exactly the registers it names, keeping the enable register 0 or 1, or is
      refused with a natural exception and changes nothing. */
  lemma WritesAreAtomic(holding: Registers, r: Request, k: nat)
    requires GoodRegisters(holding) && k < 2
    ensures GoodRegisters(Written(holding, r))
    ensures Rejection(r) != 0 ==> Written(holding, r) == holding && Response(holding, r) == Failure(Rejection(r))
    ensures Rejection(r) == 0 && r.code in {6, 16} ==>
      var p := PartsOf(r);
      Written(holding, r)[k]
      == if p.address <= k < p.address + p.quantity then NewValues(r)[k - p.address] else holding[k]
  {
  }

  /** What was written is what is read back. */
  lemma ReadAfterWrite(holding: Registers, write: Request, read: Request)
    requires GoodRegisters(holding)
    requires Rejection(write) == 0 && write.code in {6, 16}
    requires Rejection(read) == 0 && read.code == 3
    requires PartsOf(read).address == PartsOf(write).address && PartsOf(read).quantity == PartsOf(write).quantity
    ensures Response(Written(holding, write), read) == Reading(NewValues(write))
  {
    var p := PartsOf(write);
    assert Written(holding, write)[p.address..p.address + p.quantity] == NewValues(write);
  }

  /** A request that is served has a supported target and response fields that fit it. */
  lemma ResponseFits(holding: Registers, r: Request)
    requires GoodRegisters(holding) && Rejection(r) == 0
    ensures |r.data| >= 4 && Supported(PartsOf(r)) && FitsParts(PartsOf(r), Response(holding, r))
    ensures ExceptionOf(Response(holding, r)) == Number(0)
  {
    var p := PartsOf(r);
    if r.code in {3, 4} {
      var registers := if r.code == 3 then holding else InputRegisters(holding);
      NumbersAreRegisters(registers[p.address..p.address + p.quantity]);
    }
  }

  lemma BaselineFits(p: Parts)
    requires Supported(p)
    ensures FitsParts(p, Baseline(p))
  {
    NumbersAreRegisters(seq(p.quantity, _ => 0));
  }

  /** Fields that fit a target that serves the request always encode. */
  lemma FittingFieldsEncode(r: Request, fields: Fields)
    requires |r.data| >= 4 && Supported(PartsOf(r)) && FitsParts(PartsOf(r), fields)
    ensures EncodeResponse(r, fields).Some?
  {
  }

  /** A patch that fits the baseline of a target fits every response of that target. */
  lemma PatchFitsAnyResponse(p: Parts, patch: Fields, normal: Fields)
    requires Supported(p) && FitsParts(p, normal)
    requires patch.Keys <= Baseline(p).Keys && FitsParts(p, Baseline(p) + patch)
    ensures patch.Keys <= normal.Keys && FitsParts(p, normal + patch)
  {
    BaselineFits(p);
    if RegisterValues in patch {
      assert (normal + patch)[RegisterValues] == (Baseline(p) + patch)[RegisterValues];
    }
    if Exception in patch {
      assert (normal + patch)[Exception] == (Baseline(p) + patch)[Exception];
    }
  }
}
