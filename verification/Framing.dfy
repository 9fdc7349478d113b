/** One connection of the TCP host: cutting a byte stream into frames, for any frame handler.

    A handler stands for the section under the state lock: it answers a request, or ends the
    connection. */
module Framing {
  import opened Bytes
  import opened Modbus

  const MAX_BUFFER := 1024 * 1024
  const MAX_CHUNK := 65536

  datatype Handled<S> = Answered(server: S, bytes: seq<byte>) | Ended(server: S)

  type Handler<!S> = (S, Request) -> Handled<S>

  /** What a connection has come to: the requests it handled, the bytes it sent, what it still buffers. */
  datatype Session<S> = Session(server: S, handled: seq<Request>, sent: seq<byte>, buffer: seq<byte>, open: bool)

  function Opened<S>(server: S): Session<S> {
    Session(server, [], [], [], true)
  }

  function Closed<S>(x: Session<S>): Session<S> {
    x.(open := false, buffer := [])
  }

  /** The session after its first buffered frame, of `used` bytes, has been through the handler. */
  function AfterFrame<S>(h: Handler<S>, x: Session<S>, r: Request, used: nat): Session<S>
    requires used <= |x.buffer|
  {
    match h(x.server, r)
    case Ended(server) => Closed(x.(server := server, handled := x.handled + [r]))
    case Answered(server, bytes) =>
      x.(server := server, handled := x.handled + [r], sent := x.sent + bytes, buffer := x.buffer[used..])
  }

  /** Handles every complete frame of the buffer. */
  function Drain<S>(h: Handler<S>, x: Session<S>): Session<S>
    decreases |x.buffer|
  {
    match DecodeRequest(x.buffer)
    case Incomplete => x
    case Malformed => Closed(x)
    case Frame(r, used) =>
      var next := AfterFrame(h, x, r, used);
      if next.open then Drain(h, next) else next
  }

  function Receive<S>(h: Handler<S>, x: Session<S>, chunk: seq<byte>): Session<S> {
    if !x.open then x
    else
      var fed := x.(buffer := x.buffer + chunk);
      if |fed.buffer| > MAX_BUFFER then Closed(fed) else Drain(h, fed)
  }

  function ReceiveAll<S>(h: Handler<S>, x: Session<S>, chunks: seq<seq<byte>>): Session<S>
    decreases |chunks|
  {
    if chunks == [] then x else ReceiveAll(h, Receive(h, x, chunks[0]), chunks[1..])
  }

  function Joined(chunks: seq<seq<byte>>): seq<byte> {
    if chunks == [] then [] else chunks[0] + Joined(chunks[1..])
  }

  /** The chunks `recv` can return: not empty, and no longer than it asked for. */
  predicate Received(chunks: seq<seq<byte>>) {
    forall i | 0 <= i < |chunks| :: 0 < |chunks[i]| <= MAX_CHUNK
  }

  // ---------------------------------------------------------------------------------------------
  // Segmentation.

  lemma {:induction false} DrainedBuffer<S>(h: Handler<S>, x: Session<S>)
    requires x.open
    ensures |Drain(h, x).buffer| < 260
    ensures Drain(h, x).open ==> DecodeRequest(Drain(h, x).buffer).Incomplete?
    decreases |x.buffer|
  {
    var d := DecodeRequest(x.buffer);
    if d.Frame? && AfterFrame(h, x, d.request, d.used).open {
      DrainedBuffer(h, AfterFrame(h, x, d.request, d.used));
    }
  }

  /** Draining what has arrived and then the rest is draining it all at once. */
  lemma {:induction false} DrainSplits<S>(h: Handler<S>, x: Session<S>, more: seq<byte>)
    requires x.open
    ensures var first := Drain(h, x);
      Drain(h, x.(buffer := x.buffer + more))
      == if first.open then Drain(h, first.(buffer := first.buffer + more)) else first
    decreases |x.buffer|
  {
    var d := DecodeRequest(x.buffer);
    if !d.Incomplete? {
      DecodingIsStable(x.buffer, more);
    }
    if d.Frame? {
      var next := AfterFrame(h, x, d.request, d.used);
      assert (x.buffer + more)[d.used..] == x.buffer[d.used..] + more;
      if next.open {
        DrainSplits(h, next, more);
      }
    }
  }

  /** One received chunk, then the rest of the stream; the buffer limit is never in the way. */
  lemma ReceiveIsDrain<S>(h: Handler<S>, x: Session<S>, chunk: seq<byte>, rest: seq<byte>)
    requires x.open && Drain(h, x) == x && |chunk| <= MAX_CHUNK
    ensures var next := Receive(h, x, chunk);
      && |next.buffer| < 260
      && Drain(h, x.(buffer := x.buffer + chunk + rest))
         == (if next.open then Drain(h, next.(buffer := next.buffer + rest)) else next)
      && (next.open ==> Drain(h, next) == next)
  {
    DrainedBuffer(h, x);
    var fed := x.(buffer := x.buffer + chunk);
    DrainedBuffer(h, fed);
    DrainSplits(h, fed, rest);
  }

  lemma {:induction false} ClosedStaysClosed<S>(h: Handler<S>, x: Session<S>, chunks: seq<seq<byte>>)
    requires !x.open
    ensures ReceiveAll(h, x, chunks) == x
    decreases |chunks|
  {
    if chunks != [] {
      ClosedStaysClosed(h, x, chunks[1..]);
    }
  }

  lemma Reassociate(a: seq<byte>, b: seq<byte>, c: seq<byte>)
    ensures a + b + c == a + (b + c)
  {
  }

  lemma {:induction false} ChunksDoNotMatter<S>(h: Handler<S>, x: Session<S>, chunks: seq<seq<byte>>)
    requires x.open && Drain(h, x) == x && Received(chunks)
    ensures ReceiveAll(h, x, chunks) == Drain(h, x.(buffer := x.buffer + Joined(chunks)))
    decreases |chunks|
  {
    if chunks == [] {
      assert x.buffer + [] == x.buffer;
    } else {
      ReceiveIsDrain(h, x, chunks[0], Joined(chunks[1..]));
      var next := Receive(h, x, chunks[0]);
      Reassociate(x.buffer, chunks[0], Joined(chunks[1..]));
      if next.open {
        ChunksDoNotMatter(h, next, chunks[1..]);
      } else {
        ClosedStaysClosed(h, next, chunks[1..]);
      }
    }
  }

  /** For every handler, every byte stream and every way of cutting it into received chunks, one
      connection handles the same requests, comes to the same state, sends the same bytes and closes,
      or not, alike: as if the stream had arrived at once and there were no limit on the buffer. */
  lemma SegmentationDoesNotMatter<S>(h: Handler<S>, server: S, chunks: seq<seq<byte>>)
    requires Received(chunks)
    ensures ReceiveAll(h, Opened(server), chunks) == Drain(h, Opened(server).(buffer := Joined(chunks)))
    ensures |ReceiveAll(h, Opened(server), chunks).buffer| < 260
  {
    ChunksDoNotMatter(h, Opened(server), chunks);
    assert [] + Joined(chunks) == Joined(chunks);
    DrainedBuffer(h, Opened(server).(buffer := Joined(chunks)));
  }

  // ---------------------------------------------------------------------------------------------
  // The frames of a stream.

  /** The requests a stream of bytes holds, up to its first malformed header or incomplete end. */
  function Frames(stream: seq<byte>): seq<Request>
    decreases |stream|
  {
    match DecodeRequest(stream)
    case Frame(r, used) => [r] + Frames(stream[used..])
    case _ => []
  }

  /** Whether a stream runs into a malformed header. */
  predicate GoesWrong(stream: seq<byte>)
    decreases |stream|
  {
    match DecodeRequest(stream)
    case Incomplete => false
    case Malformed => true
    case Frame(_, used) => GoesWrong(stream[used..])
  }

  /** Requests put through the handler one at a time, until it ends the connection. */
  datatype Served<S> = Served(server: S, handled: seq<Request>, sent: seq<byte>, ended: bool)

  function Serve<S>(h: Handler<S>, so: Served<S>, requests: seq<Request>): Served<S>
    decreases |requests|
  {
    if requests == [] || so.ended then so
    else
      var r := requests[0];
      match h(so.server, r)
      case Ended(server) => Served(server, so.handled + [r], so.sent, true)
      case Answered(server, bytes) => Serve(h, Served(server, so.handled + [r], so.sent + bytes, false), requests[1..])
  }

  /** A connection puts exactly the frames of its stream through the handler, each once and in order,
      each against the state the one before it left, and sends the answers in the same order.  It
      closes when the handler ends it or the stream goes wrong. */
  lemma {:induction false} DrainServesFrames<S>(h: Handler<S>, x: Session<S>)
    requires x.open
    ensures var y := Drain(h, x);
      var served := Serve(h, Served(x.server, x.handled, x.sent, false), Frames(x.buffer));
      && y.server == served.server && y.handled == served.handled && y.sent == served.sent
      && (y.open <==> !served.ended && !GoesWrong(x.buffer))
    decreases |x.buffer|
  {
    var d := DecodeRequest(x.buffer);
    if d.Frame? {
      var next := AfterFrame(h, x, d.request, d.used);
      assert Frames(x.buffer)[1..] == Frames(x.buffer[d.used..]);
      if next.open {
        DrainServesFrames(h, next);
      }
    }
  }

  /** A handler that answers in every good state, and leaves a good state, answers every request. */
  lemma {:induction false} GoodHandlerAnswersAll<S(!new)>(h: Handler<S>, good: S -> bool, so: Served<S>,
                                                        requests: seq<Request>)
    requires forall s, r | good(s) :: h(s, r).Answered? && good(h(s, r).server)
    requires good(so.server) && !so.ended
    ensures var after := Serve(h, so, requests);
      !after.ended && after.handled == so.handled + requests && good(after.server)
    decreases |requests|
  {
    if requests == [] {
      assert so.handled + [] == so.handled;
    } else {
      var r := requests[0];
      var answer := h(so.server, r);
      GoodHandlerAnswersAll(h, good, Served(answer.server, so.handled + [r], so.sent + answer.bytes, false), requests[1..]);
      assert so.handled + [r] + requests[1..] == so.handled + requests;
    }
  }

  predicate AllEncodable(requests: seq<Request>) {
    forall i | 0 <= i < |requests| :: |requests[i].data| <= 252
  }

  /** The bytes of some requests, and whatever comes after them. */
  function Stream(requests: seq<Request>, rest: seq<byte>): seq<byte>
    requires AllEncodable(requests)
  {
    if requests == [] then rest else EncodeRequest(requests[0]) + Stream(requests[1..], rest)
  }

  lemma FirstFrame(r: Request, rest: seq<byte>)
    requires |r.data| <= 252
    ensures Frames(EncodeRequest(r) + rest) == [r] + Frames(rest)
    ensures GoesWrong(EncodeRequest(r) + rest) == GoesWrong(rest)
  {
    DecodeEncoded(r, rest);
    var stream := EncodeRequest(r) + rest;
    assert |EncodeRequest(r)| == 8 + |r.data|;
    assert stream[8 + |r.data|..] == rest;
  }

  lemma FirstAndRest<T>(s: seq<T>, t: seq<T>)
    requires s != []
    ensures [s[0]] + (s[1..] + t) == s + t
  {
  }

  /** Encoded requests are the frames of the stream they begin. */
  lemma {:induction false} FramesOfStream(requests: seq<Request>, rest: seq<byte>)
    requires AllEncodable(requests)
    ensures Frames(Stream(requests, rest)) == requests + Frames(rest)
    ensures GoesWrong(Stream(requests, rest)) == GoesWrong(rest)
  {
    if requests != [] {
      FramesOfStream(requests[1..], rest);
      FirstFrame(requests[0], Stream(requests[1..], rest));
      FirstAndRest(requests, Frames(rest));
    }
  }
}
