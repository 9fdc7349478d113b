/** The wire between a program linked with the C library and the SDK host: 28 bytes out, 56 back, in
    network order.  The library fills and reads byte buffers; the adapter packs and unpacks fields.

    A double is its 64 bits.  How bits and numbers correspond (`floats`, `bits`) is a parameter. */
module WireAbi {
  import opened Bytes
  import opened Options
  import opened Axis

  type uint32 = n: nat | n < 0x1_0000_0000
  type int32 = n: int | -0x8000_0000 <= n < 0x8000_0000
  type double = n: nat | n < 0x1_0000_0000_0000_0000

  const MAGIC: seq<byte> := [0x53, 0x58, 0x30, 0x31]
  const CONTROL_ERROR: int32 := -0x8000_0000
  const REQUEST_SIZE := 28
  const REPLY_SIZE := 56

  /** Not a NaN and not infinite: some bit of the exponent is clear. */
  predicate Finite(d: double) {
    d / 0x10_0000_0000_0000 % 2048 != 2047
  }

  /** Eleven ones in the exponent, between the sign and 52 bits of fraction, make a NaN or an infinity. */
  lemma FiniteByExponent(negative: bool, exponent: nat, fraction: nat)
    requires exponent < 0x800 && fraction < 0x10_0000_0000_0000
    ensures var d: double := (if negative then 0x8000_0000_0000_0000 else 0) + exponent * 0x10_0000_0000_0000 + fraction;
      Finite(d) <==> exponent != 0x7FF
  {
    var high := (if negative then 0x800 else 0) + exponent;
    var d := high * 0x10_0000_0000_0000 + fraction;
    assert d / 0x10_0000_0000_0000 == high;
  }

  // ---------------------------------------------------------------------------------------------
  // Numbers in network order.

  function Digits(n: nat, count: nat): (bytes: seq<byte>)
    ensures |bytes| == count
  {
    if count == 0 then [] else Digits(n / 256, count - 1) + [n % 256]
  }

  function Value(bytes: seq<byte>): nat {
    if bytes == [] then 0 else 256 * Value(bytes[..|bytes| - 1]) + bytes[|bytes| - 1]
  }

  function Bound(count: nat): nat {
    if count == 0 then 1 else 256 * Bound(count - 1)
  }

  lemma Bounds()
    ensures Bound(4) == 0x1_0000_0000 && Bound(8) == 0x1_0000_0000_0000_0000
  {
    assert Bound(2) == 0x1_0000;
    assert Bound(3) == 0x100_0000;
    assert Bound(4) == 0x1_0000_0000;
    assert Bound(5) == 0x100_0000_0000;
    assert Bound(6) == 0x1_0000_0000_0000;
    assert Bound(7) == 0x100_0000_0000_0000;
  }

  lemma {:induction false} ValueIsBounded(bytes: seq<byte>)
    ensures Value(bytes) < Bound(|bytes|)
  {
    if bytes != [] {
      ValueIsBounded(bytes[..|bytes| - 1]);
    }
  }

  lemma {:induction false} ValueOfDigits(n: nat, count: nat)
    requires n < Bound(count)
    ensures Value(Digits(n, count)) == n
  {
    if count > 0 {
      ValueOfDigits(n / 256, count - 1);
      assert Digits(n, count)[..count - 1] == Digits(n / 256, count - 1);
    }
  }

  lemma {:induction false} DigitsOfValue(bytes: seq<byte>)
    ensures Digits(Value(bytes), |bytes|) == bytes
  {
    if bytes != [] {
      DigitsOfValue(bytes[..|bytes| - 1]);
      assert bytes[..|bytes| - 1] + [bytes[|bytes| - 1]] == bytes;
    }
  }

  function Word32(bytes: seq<byte>): uint32
    requires |bytes| == 4
  {
    Bounds();
    ValueIsBounded(bytes);
    Value(bytes)
  }

  function Word64(bytes: seq<byte>): double
    requires |bytes| == 8
  {
    Bounds();
    ValueIsBounded(bytes);
    Value(bytes)
  }

  /** C's conversion of a signed to an unsigned word, and the way back. */
  function Unsigned(n: int32): uint32 {
    if n < 0 then n + 0x1_0000_0000 else n
  }

  function Signed(n: uint32): int32 {
    if n < 0x8000_0000 then n else n - 0x1_0000_0000
  }

  // ---------------------------------------------------------------------------------------------
  // Requests.

  function FunctionAt(opcode: uint32): Option<Function> {
    match opcode
    case 1 => Some(Enable)
    case 2 => Some(Disable)
    case 3 => Some(Home)
    case 4 => Some(MoveAbsolute)
    case 5 => Some(MoveRelative)
    case 6 => Some(Stop)
    case 7 => Some(ClearFault)
    case 8 => Some(GetPosition)
    case 9 => Some(GetState)
    case _ => None
  }

  /** One public function of the library: the numbers it passes to `call`. */
  datatype Call = Call(opcode: uint32, axis: int32, first: double, second: double)

  function CallFor(f: Function, axis: int32, angle: double, speed: double): Call
    requires !f.OtherFunction?
  {
    match f
    case Enable => Call(1, axis, 0, 0)
    case Disable => Call(2, axis, 0, 0)
    case Home => Call(3, axis, speed, 0)
    case MoveAbsolute => Call(4, axis, angle, speed)
    case MoveRelative => Call(5, axis, angle, speed)
    case Stop => Call(6, axis, 0, 0)
    case ClearFault => Call(7, axis, 0, 0)
    case GetPosition => Call(8, axis, 0, 0)
    case GetState => Call(9, axis, 0, 0)
  }

  function RequestBytes(call: Call): (bytes: seq<byte>)
    ensures |bytes| == REQUEST_SIZE
  {
    MAGIC + Digits(call.opcode, 4) + Digits(Unsigned(call.axis), 4) + Digits(call.first, 8) + Digits(call.second, 8)
  }

  /** What the adapter makes of a request; it hangs up on anything else. */
  function Parsed(bytes: seq<byte>): Option<Call>
    requires |bytes| == REQUEST_SIZE
  {
    var opcode := Word32(bytes[4..8]);
    if bytes[..4] != MAGIC || !(1 <= opcode <= 9) then None
    else Some(Call(opcode, Signed(Word32(bytes[8..12])), Word64(bytes[12..20]), Word64(bytes[20..28])))
  }

  function Number(floats: double -> real, d: double): Axis.Value {
    if Finite(d) then Float(floats(d)) else NonFinite
  }

  /** The arguments the adapter hands to the host. */
  function ArgsOf(floats: double -> real, f: Function, call: Call): Args {
    var axis := map[AxisKey := Int(call.axis)];
    if f.MoveAbsolute? || f.MoveRelative?
    then Dict(axis[AngleKey := Number(floats, call.first)][SpeedKey := Number(floats, call.second)])
    else if f.Home? then Dict(axis[SpeedKey := Number(floats, call.first)])
    else Dict(axis)
  }

  /** The arguments the caller of the library meant. */
  function Meant(floats: double -> real, f: Function, axis: int32, angle: double, speed: double): Args {
    match f
    case Home => Dict(map[AxisKey := Int(axis), SpeedKey := Float(floats(speed))])
    case MoveAbsolute | MoveRelative =>
      Dict(map[AxisKey := Int(axis), AngleKey := Float(floats(angle)), SpeedKey := Float(floats(speed))])
    case _ => Dict(map[AxisKey := Int(axis)])
  }

  /** Fields of fixed sizes, put one after another, are found again where they were put. */
  lemma RequestLayout(m: seq<byte>, o: seq<byte>, a: seq<byte>, x: seq<byte>, y: seq<byte>)
    requires |m| == 4 && |o| == 4 && |a| == 4 && |x| == 8 && |y| == 8
    ensures var bytes := m + o + a + x + y;
      bytes[..4] == m && bytes[4..8] == o && bytes[8..12] == a && bytes[12..20] == x && bytes[20..28] == y
  {
  }

  lemma RequestRoundTrip(call: Call)
    requires 1 <= call.opcode <= 9
    ensures Parsed(RequestBytes(call)) == Some(call)
  {
    Bounds();
    var o, a := Digits(call.opcode, 4), Digits(Unsigned(call.axis), 4);
    var x, y := Digits(call.first, 8), Digits(call.second, 8);
    RequestLayout(MAGIC, o, a, x, y);
    ValueOfDigits(call.opcode, 4);
    ValueOfDigits(Unsigned(call.axis), 4);
    ValueOfDigits(call.first, 8);
    ValueOfDigits(call.second, 8);
  }

  lemma FieldsOfRequest(bytes: seq<byte>)
    requires |bytes| == REQUEST_SIZE
    ensures bytes == bytes[..4] + bytes[4..8] + bytes[8..12] + bytes[12..20] + bytes[20..28]
  {
  }

  /** The adapter takes nothing but such requests, and takes each for the one call that it was made of. */
  lemma OnlyRequestsAreParsed(bytes: seq<byte>, call: Call)
    requires |bytes| == REQUEST_SIZE
    ensures Parsed(bytes) == Some(call) <==> 1 <= call.opcode <= 9 && bytes == RequestBytes(call)
  {
    if 1 <= call.opcode <= 9 && bytes == RequestBytes(call) {
      RequestRoundTrip(call);
    }
    if Parsed(bytes) == Some(call) {
      FieldsOfRequest(bytes);
      DigitsOfValue(bytes[4..8]);
      DigitsOfValue(bytes[8..12]);
      DigitsOfValue(bytes[12..20]);
      DigitsOfValue(bytes[20..28]);
    }
  }

  /** What a function does not use is sent as zero. */
  lemma UnusedIsZero(f: Function, axis: int32, angle: double, speed: double)
    requires !f.OtherFunction?
    ensures var call := CallFor(f, axis, angle, speed);
      && (f.MoveAbsolute? || f.MoveRelative? || call.second == 0)
      && (f.MoveAbsolute? || f.MoveRelative? || f.Home? || call.first == 0)
  {
  }

  /** Every call with finite arguments reaches the host as the function and the arguments meant. */
  lemma CallIsUnderstood(floats: double -> real, f: Function, axis: int32, angle: double, speed: double)
    requires !f.OtherFunction? && Finite(angle) && Finite(speed)
    ensures var parsed := Parsed(RequestBytes(CallFor(f, axis, angle, speed)));
      parsed.Some? && FunctionAt(parsed.value.opcode) == Some(f)
      && ArgsOf(floats, f, parsed.value) == Meant(floats, f, axis, angle, speed)
  {
    RequestRoundTrip(CallFor(f, axis, angle, speed));
  }

  // ---------------------------------------------------------------------------------------------
  // Replies.

  datatype WireState = WireState(
    position: double, velocity: double, target: double,
    enabled: uint32, homed: uint32, busy: uint32, done: uint32, alarm: uint32, faults: uint32)

  function Flag(b: bool): uint32 {
    if b then 1 else 0
  }

  function Flags(faults: Faults): uint32 {
    Flag(faults.stalled) + 2 * Flag(faults.positiveLimit) + 4 * Flag(faults.negativeLimit)
  }

  /** The faults a client reads off the bits. */
  function FaultsOf(flags: uint32): Faults {
    Faults(flags % 2 == 1, flags / 2 % 2 == 1, flags / 4 % 2 == 1)
  }

  lemma FlagsRoundTrip(faults: Faults, flags: uint32)
    ensures FaultsOf(Flags(faults)) == faults && Flags(faults) <= 7
    ensures flags <= 7 ==> Flags(FaultsOf(flags)) == flags
  {
  }

  function StateOf(bits: real -> double, s: Snapshot): WireState
    requires 0 <= s.alarm < 0x1_0000_0000
  {
    WireState(bits(s.position), bits(s.velocity), bits(s.target), Flag(s.enabled), Flag(s.homed), Flag(s.busy),
              Flag(s.done), s.alarm, Flags(s.faults))
  }

  function StateWords(w: WireState): (bytes: seq<byte>)
    ensures |bytes| == 24
  {
    Digits(w.enabled, 4) + Digits(w.homed, 4) + Digits(w.busy, 4)
    + Digits(w.done, 4) + Digits(w.alarm, 4) + Digits(w.faults, 4)
  }

  function ReplyBytes(code: int32, w: WireState): (bytes: seq<byte>)
    ensures |bytes| == REPLY_SIZE
  {
    MAGIC + Digits(Unsigned(code), 4) + Digits(w.position, 8) + Digits(w.velocity, 8) + Digits(w.target, 8)
    + StateWords(w)
  }

  predicate Acceptable(w: WireState) {
    Finite(w.position) && Finite(w.velocity) && Finite(w.target)
    && w.enabled <= 1 && w.homed <= 1 && w.busy <= 1 && w.done <= 1 && w.faults <= 7
  }

  function StateIn(bytes: seq<byte>): WireState
    requires |bytes| == REPLY_SIZE
  {
    WireState(Word64(bytes[8..16]), Word64(bytes[16..24]), Word64(bytes[24..32]),
              Word32(bytes[32..36]), Word32(bytes[36..40]), Word32(bytes[40..44]),
              Word32(bytes[44..48]), Word32(bytes[48..52]), Word32(bytes[52..56]))
  }

  /** What the library makes of a reply: a failure of the control channel, or the code and, with OK, the
      state if the caller wants it. */
  datatype Answer = ControlFailure | Answer(code: int32, state: Option<WireState>)

  function Understood(bytes: seq<byte>, wanted: bool): Answer
    requires |bytes| == REPLY_SIZE
  {
    var code := Signed(Word32(bytes[4..8]));
    if bytes[..4] != MAGIC || code == CONTROL_ERROR then ControlFailure
    else if code != 0 || !wanted then Answer(code, None)
    else if Acceptable(StateIn(bytes)) then Answer(code, Some(StateIn(bytes)))
    else ControlFailure
  }

  lemma ReplyLayout(m: seq<byte>, c: seq<byte>, x: seq<byte>, y: seq<byte>, z: seq<byte>, words: seq<byte>)
    requires |m| == 4 && |c| == 4 && |x| == 8 && |y| == 8 && |z| == 8 && |words| == 24
    ensures var bytes := m + c + x + y + z + words;
      && bytes[..4] == m && bytes[4..8] == c && bytes[8..16] == x && bytes[16..24] == y && bytes[24..32] == z
      && bytes[32..56] == words
  {
  }

  lemma WordsLayout(e: seq<byte>, h: seq<byte>, b: seq<byte>, d: seq<byte>, a: seq<byte>, f: seq<byte>)
    requires |e| == 4 && |h| == 4 && |b| == 4 && |d| == 4 && |a| == 4 && |f| == 4
    ensures var bytes := e + h + b + d + a + f;
      && bytes[..4] == e && bytes[4..8] == h && bytes[8..12] == b && bytes[12..16] == d && bytes[16..20] == a
      && bytes[20..24] == f
  {
  }

  lemma SliceOfSlice(bytes: seq<byte>, at: nat, i: nat, j: nat)
    requires at + 24 <= |bytes| && i <= j <= 24
    ensures bytes[at..at + 24][i..j] == bytes[at + i..at + j]
  {
    var part := bytes[at..at + 24];
    assert |part[i..j]| == j - i;
    forall k | 0 <= k < j - i ensures part[i..j][k] == bytes[at + i..at + j][k] {
      assert part[i..j][k] == part[i + k];
    }
  }

  lemma HeadRoundTrip(code: int32, w: WireState)
    ensures var bytes := ReplyBytes(code, w); bytes[..4] == MAGIC && Signed(Word32(bytes[4..8])) == code
  {
    Bounds();
    ReplyLayout(MAGIC, Digits(Unsigned(code), 4), Digits(w.position, 8), Digits(w.velocity, 8), Digits(w.target, 8),
                StateWords(w));
    ValueOfDigits(Unsigned(code), 4);
  }

  lemma DoublesRoundTrip(code: int32, w: WireState)
    ensures var bytes := ReplyBytes(code, w);
      Word64(bytes[8..16]) == w.position && Word64(bytes[16..24]) == w.velocity && Word64(bytes[24..32]) == w.target
  {
    Bounds();
    ReplyLayout(MAGIC, Digits(Unsigned(code), 4), Digits(w.position, 8), Digits(w.velocity, 8), Digits(w.target, 8),
                StateWords(w));
    ValueOfDigits(w.position, 8);
    ValueOfDigits(w.velocity, 8);
    ValueOfDigits(w.target, 8);
  }

  lemma WordsAreWhereTheyWerePut(bytes: seq<byte>, w: WireState)
    requires |bytes| == REPLY_SIZE && bytes[32..56] == StateWords(w)
    ensures bytes[32..36] == Digits(w.enabled, 4) && bytes[36..40] == Digits(w.homed, 4)
    ensures bytes[40..44] == Digits(w.busy, 4) && bytes[44..48] == Digits(w.done, 4)
    ensures bytes[48..52] == Digits(w.alarm, 4) && bytes[52..56] == Digits(w.faults, 4)
  {
    WordsLayout(Digits(w.enabled, 4), Digits(w.homed, 4), Digits(w.busy, 4), Digits(w.done, 4), Digits(w.alarm, 4),
                Digits(w.faults, 4));
    SliceOfSlice(bytes, 32, 0, 4);
    SliceOfSlice(bytes, 32, 4, 8);
    SliceOfSlice(bytes, 32, 8, 12);
    SliceOfSlice(bytes, 32, 12, 16);
    SliceOfSlice(bytes, 32, 16, 20);
    SliceOfSlice(bytes, 32, 20, 24);
  }

  lemma WordsOfReply(code: int32, w: WireState)
    ensures var bytes := ReplyBytes(code, w);
      && Word32(bytes[32..36]) == w.enabled && Word32(bytes[36..40]) == w.homed && Word32(bytes[40..44]) == w.busy
      && Word32(bytes[44..48]) == w.done && Word32(bytes[48..52]) == w.alarm && Word32(bytes[52..56]) == w.faults
  {
    Bounds();
    ReplyLayout(MAGIC, Digits(Unsigned(code), 4), Digits(w.position, 8), Digits(w.velocity, 8), Digits(w.target, 8),
                StateWords(w));
    WordsAreWhereTheyWerePut(ReplyBytes(code, w), w);
    ValueOfDigits(w.enabled, 4);
    ValueOfDigits(w.homed, 4);
    ValueOfDigits(w.busy, 4);
    ValueOfDigits(w.done, 4);
    ValueOfDigits(w.alarm, 4);
    ValueOfDigits(w.faults, 4);
  }

  lemma StateRoundTrip(code: int32, w: WireState)
    ensures StateIn(ReplyBytes(code, w)) == w
  {
    DoublesRoundTrip(code, w);
    WordsOfReply(code, w);
  }

  lemma FieldsOfReply(bytes: seq<byte>)
    requires |bytes| == REPLY_SIZE
    ensures bytes == bytes[..4] + bytes[4..8] + bytes[8..16] + bytes[16..24] + bytes[24..32] + bytes[32..56]
    ensures bytes[32..56] ==
      bytes[32..36] + bytes[36..40] + bytes[40..44] + bytes[44..48] + bytes[48..52] + bytes[52..56]
  {
  }

  lemma WordsAreTheState(bytes: seq<byte>)
    requires |bytes| == REPLY_SIZE
    ensures bytes[32..56] == StateWords(StateIn(bytes))
  {
    FieldsOfReply(bytes);
    DigitsOfValue(bytes[32..36]);
    DigitsOfValue(bytes[36..40]);
    DigitsOfValue(bytes[40..44]);
    DigitsOfValue(bytes[44..48]);
    DigitsOfValue(bytes[48..52]);
    DigitsOfValue(bytes[52..56]);
  }

  /** Bytes are the reply made of the fields read from them. */
  lemma BytesAreTheReply(bytes: seq<byte>)
    requires |bytes| == REPLY_SIZE && bytes[..4] == MAGIC
    ensures bytes == ReplyBytes(Signed(Word32(bytes[4..8])), StateIn(bytes))
  {
    FieldsOfReply(bytes);
    WordsAreTheState(bytes);
    DigitsOfValue(bytes[4..8]);
    DigitsOfValue(bytes[8..16]);
    DigitsOfValue(bytes[16..24]);
    DigitsOfValue(bytes[24..32]);
  }

  /** A state is accepted exactly from the reply that carries it with OK and passes the range checks. */
  lemma StateIsAcceptedOnlyFromItsReply(bytes: seq<byte>, w: WireState)
    requires |bytes| == REPLY_SIZE
    ensures Understood(bytes, true) == Answer(0, Some(w)) <==> bytes == ReplyBytes(0, w) && Acceptable(w)
  {
    if bytes == ReplyBytes(0, w) {
      StateRoundTrip(0, w);
      HeadRoundTrip(0, w);
    }
    if Understood(bytes, true) == Answer(0, Some(w)) {
      BytesAreTheReply(bytes);
    }
  }

  /** A reply with OK whose numbers are not finite, or whose flags are out of range, is no answer. */
  lemma StrangeStatesAreRefused(w: WireState)
    ensures Understood(ReplyBytes(0, w), true) == ControlFailure
            <==> !(Finite(w.position) && Finite(w.velocity) && Finite(w.target)
                   && w.enabled in {0, 1} && w.homed in {0, 1} && w.busy in {0, 1} && w.done in {0, 1} && w.faults <= 7)
  {
    StateRoundTrip(0, w);
    HeadRoundTrip(0, w);
  }

  lemma ReplyIsUnderstood(code: int32, w: WireState, wanted: bool)
    requires code != CONTROL_ERROR && Acceptable(w)
    ensures Understood(ReplyBytes(code, w), wanted) == Answer(code, if code == 0 && wanted then Some(w) else None)
  {
    StateRoundTrip(code, w);
    HeadRoundTrip(code, w);
  }

  // ---------------------------------------------------------------------------------------------
  // The library's buffers.

  lemma FourDigits(n: nat)
    ensures Digits(n, 4) == [n / 256 / 256 / 256 % 256, n / 256 / 256 % 256, n / 256 % 256, n % 256]
  {
    assert Digits(n / 256 / 256 / 256, 1) == [n / 256 / 256 / 256 % 256];
    assert Digits(n / 256 / 256, 2) == Digits(n / 256 / 256 / 256, 1) + [n / 256 / 256 % 256];
    assert Digits(n / 256, 3) == Digits(n / 256 / 256, 2) + [n / 256 % 256];
  }

  lemma {:induction false} BoundGrows(i: nat, j: nat)
    requires i <= j
    ensures Bound(i) <= Bound(j)
    decreases j
  {
    if i < j {
      BoundGrows(i, j - 1);
    }
  }

  method PutU32(p: array<byte>, at: nat, value: uint32)
    requires at + 4 <= p.Length
    modifies p
    ensures p[..] == old(p[..at]) + Digits(value, 4) + old(p[at + 4..])
  {
    FourDigits(value);
    p[at], p[at + 1] := value / 256 / 256 / 256 % 256, value / 256 / 256 % 256;
    p[at + 2], p[at + 3] := value / 256 % 256, value % 256;
  }

  method PutDouble(p: array<byte>, at: nat, value: double)
    requires at + 8 <= p.Length
    modifies p
    ensures p[..] == old(p[..at]) + Digits(value, 8) + old(p[at + 8..])
  {
    var bits: nat := value;
    var i := 7;
    while i >= 0
      invariant -1 <= i <= 7
      invariant Digits(bits, i + 1) + p[at + i + 1..at + 8] == Digits(value, 8)
      invariant p[..at] == old(p[..at]) && p[at + 8..] == old(p[at + 8..])
    {
      p[at + i] := bits % 256;
      bits := bits / 256;
      i := i - 1;
    }
    assert p[..] == p[..at] + p[at..at + 8] + p[at + 8..];
  }

  method GetDouble(p: array<byte>, at: nat) returns (value: double)
    requires at + 8 <= p.Length
    ensures value == Word64(p[at..at + 8])
  {
    var bits: nat := 0;
    for i := 0 to 8
      invariant bits == Value(p[at..at + i])
    {
      assert p[at..at + i + 1][..i] == p[at..at + i];
      ValueIsBounded(p[at..at + i]);
      Bounds();
      BoundGrows(i, 7);
      bits := bits * 256 % 0x1_0000_0000_0000_0000 + p[at + i];
    }
    assert bits == Word64(p[at..at + 8]);
    value := bits;
  }

  function FourBytes(a: int, b: int, c: int, d: int): int {
    ((a * 256 + b) * 256 + c) * 256 + d
  }

  lemma ValueOfFour(bytes: seq<byte>)
    requires |bytes| == 4
    ensures Value(bytes) == FourBytes(bytes[0], bytes[1], bytes[2], bytes[3])
  {
    assert bytes[..3][..2] == bytes[..2] && bytes[..2][..1] == bytes[..1];
    assert Value(bytes[..1]) == bytes[0];
    assert Value(bytes[..2]) == 256 * Value(bytes[..1]) + bytes[1];
    assert Value(bytes[..3]) == 256 * Value(bytes[..2]) + bytes[2];
  }

  method GetU32(p: array<byte>, at: nat) returns (value: uint32)
    requires at + 4 <= p.Length
    ensures value == Word32(p[at..at + 4])
  {
    ValueOfFour(p[at..at + 4]);
    var number := FourBytes(p[at], p[at + 1], p[at + 2], p[at + 3]);
    assert number == Word32(p[at..at + 4]);
    value := number;
  }

  /** The request buffer as `call` fills it. */
  method FillRequest(call: Call) returns (request: array<byte>)
    ensures fresh(request) && request[..] == RequestBytes(call)
  {
    request := new byte[REQUEST_SIZE](_ => 0);
    request[0], request[1], request[2], request[3] := MAGIC[0], MAGIC[1], MAGIC[2], MAGIC[3];
    assert request[..4] == MAGIC;
    PutU32(request, 4, call.opcode);
    PutU32(request, 8, Unsigned(call.axis));
    PutDouble(request, 12, call.first);
    PutDouble(request, 20, call.second);
  }

  method ReadState(response: array<byte>) returns (w: WireState)
    requires response.Length == REPLY_SIZE
    ensures w == StateIn(response[..])
  {
    var position := GetDouble(response, 8);
    var velocity := GetDouble(response, 16);
    var target := GetDouble(response, 24);
    var enabled := GetU32(response, 32);
    var homed := GetU32(response, 36);
    var busy := GetU32(response, 40);
    var done := GetU32(response, 44);
    var alarm := GetU32(response, 48);
    var faults := GetU32(response, 52);
    w := WireState(position, velocity, target, enabled, homed, busy, done, alarm, faults);
  }

  method ReadReply(response: array<byte>, wanted: bool) returns (answer: Answer)
    requires response.Length == REPLY_SIZE
    ensures answer == Understood(response[..], wanted)
  {
    if response[0] != MAGIC[0] || response[1] != MAGIC[1] || response[2] != MAGIC[2] || response[3] != MAGIC[3] {
      return ControlFailure;
    }
    assert response[..][..4] == MAGIC;
    var raw := GetU32(response, 4);
    var code := Signed(raw);
    if code == CONTROL_ERROR {
      return ControlFailure;
    }
    if code != 0 || !wanted {
      return Answer(code, None);
    }
    var w := ReadState(response);
    answer := if Acceptable(w) then Answer(code, Some(w)) else ControlFailure;
  }

  /** The codes by their names in the header of the library. */
  function NameOf(code: int32): Option<Result> {
    match code
    case 0 => Some(Ok)
    case 1 => Some(InvalidArgument)
    case 2 => Some(NotEnabled)
    case 3 => Some(NotHomed)
    case 4 => Some(Busy)
    case 5 => Some(Limit)
    case 6 => Some(Fault)
    case 7 => Some(UnknownFunction)
    case _ => None
  }

  /** The header and the device name the same codes. */
  lemma CodesAgree(result: Result)
    ensures NameOf(result.Code()) == Some(result)
  {
  }
}
