/** Any number of TCP connections, interleaved with one another and with control requests.

    Each section under the state lock is one step; so is anything a connection does on its own.  The
    log is the order in which sections ran. */
module TcpInterleaving {
  import opened Bytes
  import opened Modbus
  import opened Framing
  import opened TcpService
  import opened TcpTheorems

  /** A connection: the generation it keeps from when it was opened, how long the log was then, all it
      has received, what of that it still buffers, and the requests it has put through the device. */
  datatype Connection = Connection(generation: nat, since: nat, arrived: seq<byte>, buffer: seq<byte>,
                                   handled: seq<Request>, open: bool)

  datatype LogEntry = FrameRan(connection: nat, request: Request) | ControlRan(control: Control)

  predicate SameStanding(s: Server, t: Server) {
    t.generation == s.generation && t.failed == s.failed
  }

  /** A handler that answers every frame, keeps the host's invariant and leaves resets and failures to
      control requests. */
  ghost predicate Reliable(h: Handler<Server>) {
    forall s, r | ServerInvariant(s) ::
      h(s, r).Answered? && ServerInvariant(h(s, r).server) && SameStanding(s, h(s, r).server)
  }

  datatype World = World(server: Server, connections: map<nat, Connection>, log: seq<LogEntry>)

  datatype Action =
    | Connect(id: nat)
    | Arrive(id: nat, chunk: seq<byte>)
    | Proceed(id: nat)
    | Disconnect(id: nat)
    | Manage(control: Control)

  function StartWorld(): World {
    World(StartServer(), map[], [])
  }

  function WithConnection(w: World, id: nat, c: Connection): World {
    w.(connections := w.connections[id := c])
  }

  function Connected(w: World, id: nat): World {
    if id in w.connections then w
    else WithConnection(w, id, Connection(w.server.generation, |w.log|, [], [], [], true))
  }

  function Fed(c: Connection, chunk: seq<byte>): Connection {
    c.(arrived := c.arrived + chunk, buffer := c.buffer + chunk, open := |c.buffer + chunk| <= MAX_BUFFER)
  }

  function Arrived(w: World, id: nat, chunk: seq<byte>): World {
    if id !in w.connections || !w.connections[id].open then w
    else WithConnection(w, id, Fed(w.connections[id], chunk))
  }

  /** A connection after its first buffered frame, of `used` bytes, has run. */
  function Advanced(c: Connection, r: Request, used: nat): Connection
    requires used <= |c.buffer|
  {
    c.(buffer := c.buffer[used..], handled := c.handled + [r])
  }

  /** What a frame that runs leaves behind. */
  function Ran(w: World, id: nat, next: Connection, r: Request, server: Server): World {
    World(server, w.connections[id := next], w.log + [FrameRan(id, r)])
  }

  /** A connection looks at its buffer and, if a frame is complete, enters the locked section. */
  function Proceeded(h: Handler<Server>, w: World, id: nat): World {
    if id !in w.connections || !w.connections[id].open then w
    else
      var c := w.connections[id];
      match DecodeRequest(c.buffer)
      case Incomplete => w
      case Malformed => WithConnection(w, id, c.(open := false))
      case Frame(r, used) =>
        if !InForce(w.server, c.generation) then WithConnection(w, id, c.(open := false))
        else
          var handled := h(w.server, r);
          var next := Advanced(c, r, used).(open := handled.Answered?);
          Ran(w, id, next, r, handled.server)
  }

  function Disconnected(w: World, id: nat): World {
    if id !in w.connections then w else WithConnection(w, id, w.connections[id].(open := false))
  }

  function Managed(w: World, control: Control): World {
    World(Dispatched(w.server, control).server, w.connections, w.log + [ControlRan(control)])
  }

  function Act(h: Handler<Server>, w: World, a: Action): World {
    match a
    case Connect(id) => Connected(w, id)
    case Arrive(id, chunk) => Arrived(w, id, chunk)
    case Proceed(id) => Proceeded(h, w, id)
    case Disconnect(id) => Disconnected(w, id)
    case Manage(control) => Managed(w, control)
  }

  function Acts(h: Handler<Server>, w: World, actions: seq<Action>): World {
    if actions == [] then w else Act(h, Acts(h, w, actions[..|actions| - 1]), actions[|actions| - 1])
  }

  /** The same sections run one after another, with no connections at all. */
  function Replay(h: Handler<Server>, log: seq<LogEntry>): Server {
    if log == [] then StartServer()
    else
      var before := Replay(h, log[..|log| - 1]);
      match log[|log| - 1]
      case FrameRan(_, r) => h(before, r).server
      case ControlRan(control) => Dispatched(before, control).server
  }

  /** The requests of one connection, in the order their sections ran. */
  function RequestsOf(log: seq<LogEntry>, id: nat): seq<Request> {
    if log == [] then []
    else
      var last := log[|log| - 1];
      RequestsOf(log[..|log| - 1], id) + if last.FrameRan? && last.connection == id then [last.request] else []
  }

  /** The resets that took effect, the failed one included. */
  function Resets(h: Handler<Server>, log: seq<LogEntry>): nat {
    if log == [] then 0
    else
      var last := log[|log| - 1];
      Resets(h, log[..|log| - 1])
      + if last.ControlRan? && last.control.Reset? && !Replay(h, log[..|log| - 1]).failed then 1 else 0
  }

  /** Every frame that ran came from a connection with no reset between its opening and that frame, and
      met a host that had not failed. */
  ghost predicate NoneIsStale(h: Handler<Server>, connections: map<nat, Connection>, log: seq<LogEntry>) {
    forall i | 0 <= i < |log| && log[i].FrameRan? ::
      && log[i].connection in connections
      && connections[log[i].connection].since <= i
      && Resets(h, log[..i]) == Resets(h, log[..connections[log[i].connection].since])
      && !Replay(h, log[..i]).failed
  }

  ghost predicate Counts(h: Handler<Server>, c: Connection, log: seq<LogEntry>) {
    c.since <= |log| && c.generation == Resets(h, log[..c.since])
  }

  /** A connection's generation is the number of resets before it was opened. */
  ghost predicate GenerationsCount(h: Handler<Server>, connections: map<nat, Connection>, log: seq<LogEntry>) {
    forall id | id in connections :: Counts(h, connections[id], log)
  }

  /** The host is in the state that the logged sections alone would leave. */
  ghost predicate Sequential(h: Handler<Server>, server: Server, log: seq<LogEntry>) {
    server == Replay(h, log) && ServerInvariant(server) && server.generation == Resets(h, log)
  }

  /** Every byte received is either buffered or belongs to exactly one request that ran, in order. */
  ghost predicate Accounted(c: Connection, requests: seq<Request>) {
    && c.handled == requests
    && AllEncodable(requests)
    && c.arrived == Stream(requests, c.buffer)
  }

  ghost predicate AllAccounted(connections: map<nat, Connection>, log: seq<LogEntry>) {
    && (forall id | id in connections :: Accounted(connections[id], RequestsOf(log, id)))
    && (forall id | id !in connections :: RequestsOf(log, id) == [])
  }

  ghost predicate WorldInvariant(h: Handler<Server>, w: World) {
    && Sequential(h, w.server, w.log)
    && AllAccounted(w.connections, w.log)
    && GenerationsCount(h, w.connections, w.log)
    && NoneIsStale(h, w.connections, w.log)
  }

  lemma {:induction false} StreamMovesOn(requests: seq<Request>, r: Request, rest: seq<byte>)
    requires AllEncodable(requests) && |r.data| <= 252
    ensures Stream(requests + [r], rest) == Stream(requests, EncodeRequest(r) + rest)
  {
    if requests == [] {
      assert [] + [r] == [r];
    } else {
      assert (requests + [r])[1..] == requests[1..] + [r];
      StreamMovesOn(requests[1..], r, rest);
    }
  }

  lemma Regroup(first: seq<byte>, second: seq<byte>, rest: seq<byte>)
    ensures first + second + rest == first + (second + rest)
  {
  }

  lemma {:induction false} StreamGrows(requests: seq<Request>, rest: seq<byte>, more: seq<byte>)
    requires AllEncodable(requests)
    ensures Stream(requests, rest) + more == Stream(requests, rest + more)
  {
    if requests != [] {
      StreamGrows(requests[1..], rest, more);
      Regroup(EncodeRequest(requests[0]), Stream(requests[1..], rest), more);
    }
  }

  lemma Prefix(log: seq<LogEntry>, e: LogEntry, i: nat)
    requires i <= |log|
    ensures (log + [e])[..i] == log[..i] && log[..|log|] == log
  {
  }

  lemma Grown(log: seq<LogEntry>, e: LogEntry)
    ensures (log + [e])[..|log|] == log && (log + [e])[|log|] == e
  {
  }

  lemma GenerationsStay(h: Handler<Server>, connections: map<nat, Connection>, log: seq<LogEntry>, e: LogEntry)
    requires GenerationsCount(h, connections, log)
    ensures GenerationsCount(h, connections, log + [e])
  {
    forall id | id in connections ensures Counts(h, connections[id], log + [e]) {
      Prefix(log, e, connections[id].since);
    }
  }

  /** One more entry, if it is a frame, has to be of a connection of the present generation. */
  lemma StaysFresh(h: Handler<Server>, connections: map<nat, Connection>, log: seq<LogEntry>, e: LogEntry)
    requires GenerationsCount(h, connections, log) && NoneIsStale(h, connections, log)
    requires e.FrameRan? ==>
      e.connection in connections && connections[e.connection].generation == Resets(h, log) && !Replay(h, log).failed
    ensures NoneIsStale(h, connections, log + [e])
  {
    var longer := log + [e];
    forall i | 0 <= i < |longer| && longer[i].FrameRan?
      ensures longer[i].connection in connections
      ensures var since := connections[longer[i].connection].since;
        since <= i && Resets(h, longer[..i]) == Resets(h, longer[..since]) && !Replay(h, longer[..i]).failed
    {
      Prefix(log, e, i);
      Prefix(log, e, connections[longer[i].connection].since);
    }
  }

  /** Connections change, but never when they were opened. */
  ghost predicate SameOpenings(before: map<nat, Connection>, after: map<nat, Connection>) {
    forall id | id in before ::
      id in after && after[id].since == before[id].since && after[id].generation == before[id].generation
  }

  lemma OpeningsDecide(h: Handler<Server>, before: map<nat, Connection>, after: map<nat, Connection>, log: seq<LogEntry>)
    requires NoneIsStale(h, before, log) && SameOpenings(before, after)
    ensures NoneIsStale(h, after, log)
  {
  }

  predicate BelongsTo(e: LogEntry, id: nat) {
    e.FrameRan? && e.connection == id
  }

  lemma RequestsGrow(log: seq<LogEntry>, e: LogEntry)
    ensures forall id | BelongsTo(e, id) :: RequestsOf(log + [e], id) == RequestsOf(log, id) + [e.request]
    ensures forall id | !BelongsTo(e, id) :: RequestsOf(log + [e], id) == RequestsOf(log, id)
  {
    assert (log + [e])[..|log|] == log;
    forall id: nat | !BelongsTo(e, id) ensures RequestsOf(log + [e], id) == RequestsOf(log, id) {
      assert RequestsOf(log, id) + [] == RequestsOf(log, id);
    }
  }

  lemma OneRequestMore(arrived: seq<byte>, requests: seq<Request>, buffer: seq<byte>, r: Request, rest: seq<byte>)
    requires AllEncodable(requests) && arrived == Stream(requests, buffer)
    requires |r.data| <= 252 && buffer == EncodeRequest(r) + rest
    ensures AllEncodable(requests + [r]) && arrived == Stream(requests + [r], rest)
  {
    StreamMovesOn(requests, r, rest);
  }

  lemma FirstFrameOf(buffer: seq<byte>)
    requires DecodeRequest(buffer).Frame?
    ensures var d := DecodeRequest(buffer);
      d.used <= |buffer| && |d.request.data| <= 252 && buffer == EncodeRequest(d.request) + buffer[d.used..]
  {
    var d := DecodeRequest(buffer);
    EncodeDecoded(buffer);
    assert buffer == buffer[..d.used] + buffer[d.used..];
  }

  lemma FrameAccounted(c: Connection, requests: seq<Request>)
    requires Accounted(c, requests) && DecodeRequest(c.buffer).Frame?
    ensures var d := DecodeRequest(c.buffer);
      d.used <= |c.buffer| && Accounted(Advanced(c, d.request, d.used), requests + [d.request])
  {
    var d := DecodeRequest(c.buffer);
    FirstFrameOf(c.buffer);
    OneRequestMore(c.arrived, requests, c.buffer, d.request, c.buffer[d.used..]);
  }

  lemma FrameIsSequential(h: Handler<Server>, server: Server, log: seq<LogEntry>, id: nat, r: Request)
    requires Sequential(h, server, log) && ServerInvariant(h(server, r).server)
    requires h(server, r).server.generation == server.generation
    ensures Sequential(h, h(server, r).server, log + [FrameRan(id, r)])
  {
    Grown(log, FrameRan(id, r));
  }

  lemma FrameIsAccounted(connections: map<nat, Connection>, log: seq<LogEntry>, id: nat, next: Connection, r: Request)
    requires AllAccounted(connections, log) && id in connections && Accounted(next, RequestsOf(log, id) + [r])
    ensures AllAccounted(connections[id := next], log + [FrameRan(id, r)])
  {
    RequestsGrow(log, FrameRan(id, r));
  }

  lemma ReplacedCounts(h: Handler<Server>, connections: map<nat, Connection>, log: seq<LogEntry>, id: nat, next: Connection)
    requires GenerationsCount(h, connections, log) && id in connections
    requires next.since == connections[id].since && next.generation == connections[id].generation
    ensures GenerationsCount(h, connections[id := next], log) && SameOpenings(connections, connections[id := next])
  {
    assert Counts(h, connections[id], log);
  }

  lemma FrameRuns(h: Handler<Server>, w: World, id: nat, next: Connection, r: Request, server: Server)
    requires WorldInvariant(h, w) && id in w.connections && !w.server.failed
    requires server == h(w.server, r).server && ServerInvariant(server)
    requires server.generation == w.server.generation == next.generation == w.connections[id].generation
    requires next.since == w.connections[id].since
    requires Accounted(next, RequestsOf(w.log, id) + [r])
    ensures WorldInvariant(h, Ran(w, id, next, r, server))
  {
    var e, connections := FrameRan(id, r), w.connections[id := next];
    FrameIsSequential(h, w.server, w.log, id, r);
    FrameIsAccounted(w.connections, w.log, id, next, r);
    ReplacedCounts(h, w.connections, w.log, id, next);
    GenerationsStay(h, connections, w.log, e);
    OpeningsDecide(h, w.connections, connections, w.log);
    StaysFresh(h, connections, w.log, e);
  }

  lemma ReplacedIsAccounted(connections: map<nat, Connection>, log: seq<LogEntry>, id: nat, next: Connection)
    requires AllAccounted(connections, log) && id in connections && Accounted(next, RequestsOf(log, id))
    ensures AllAccounted(connections[id := next], log)
  {
  }

  /** Anything else that happens to one connection leaves the log alone. */
  lemma ConnectionChanges(h: Handler<Server>, w: World, id: nat, next: Connection)
    requires WorldInvariant(h, w) && id in w.connections
    requires next.since == w.connections[id].since && next.generation == w.connections[id].generation
    requires Accounted(next, RequestsOf(w.log, id))
    ensures WorldInvariant(h, WithConnection(w, id, next))
  {
    ReplacedIsAccounted(w.connections, w.log, id, next);
    ReplacedCounts(h, w.connections, w.log, id, next);
    OpeningsDecide(h, w.connections, w.connections[id := next], w.log);
  }

  lemma FrameProceeds(h: Handler<Server>, w: World, id: nat, r: Request, used: nat)
    requires Reliable(h) && WorldInvariant(h, w) && id in w.connections && InForce(w.server, w.connections[id].generation)
    requires DecodeRequest(w.connections[id].buffer) == Frame(r, used)
    ensures used <= |w.connections[id].buffer| && h(w.server, r).Answered?
    ensures WorldInvariant(h, Ran(w, id, Advanced(w.connections[id], r, used), r, h(w.server, r).server))
  {
    FrameAccounted(w.connections[id], RequestsOf(w.log, id));
    FrameRuns(h, w, id, Advanced(w.connections[id], r, used), r, h(w.server, r).server);
  }

  lemma CloseInvariant(h: Handler<Server>, w: World, id: nat)
    requires WorldInvariant(h, w) && id in w.connections
    ensures WorldInvariant(h, WithConnection(w, id, w.connections[id].(open := false)))
  {
    ConnectionChanges(h, w, id, w.connections[id].(open := false));
  }

  lemma StaysOpen(c: Connection, r: Request, used: nat)
    requires c.open && used <= |c.buffer|
    ensures Advanced(c, r, used).(open := true) == Advanced(c, r, used)
  {
  }

  predicate Runs(w: World, id: nat) {
    && id in w.connections && w.connections[id].open
    && DecodeRequest(w.connections[id].buffer).Frame? && InForce(w.server, w.connections[id].generation)
  }

  /** Unless a frame runs, a connection that proceeds is at most closed. */
  lemma ProceedCases(h: Handler<Server>, w: World, id: nat)
    ensures Runs(w, id) ==>
      var c, d := w.connections[id], DecodeRequest(w.connections[id].buffer);
      var handled := h(w.server, d.request);
      d.used <= |c.buffer|
      && Proceeded(h, w, id) ==
           Ran(w, id, Advanced(c, d.request, d.used).(open := handled.Answered?), d.request, handled.server)
    ensures !Runs(w, id) ==>
      Proceeded(h, w, id) == w
      || (id in w.connections && Proceeded(h, w, id) == WithConnection(w, id, w.connections[id].(open := false)))
  {
  }

  lemma ProceedInvariant(h: Handler<Server>, w: World, id: nat)
    requires Reliable(h) && WorldInvariant(h, w)
    ensures WorldInvariant(h, Proceeded(h, w, id))
  {
    ProceedCases(h, w, id);
    if Runs(w, id) {
      var d := DecodeRequest(w.connections[id].buffer);
      FrameProceeds(h, w, id, d.request, d.used);
      StaysOpen(w.connections[id], d.request, d.used);
    } else if Proceeded(h, w, id) != w {
      CloseInvariant(h, w, id);
    }
  }

  lemma ControlAccounted(connections: map<nat, Connection>, log: seq<LogEntry>, control: Control)
    requires AllAccounted(connections, log)
    ensures AllAccounted(connections, log + [ControlRan(control)])
  {
    RequestsGrow(log, ControlRan(control));
  }

  lemma ControlRuns(h: Handler<Server>, server: Server, log: seq<LogEntry>, control: Control)
    requires Sequential(h, server, log)
    ensures Sequential(h, Dispatched(server, control).server, log + [ControlRan(control)])
  {
    var after := Dispatched(server, control).server;
    Grown(log, ControlRan(control));
    DispatchedInvariant(server, control);
    assert Replay(h, log + [ControlRan(control)]) == after;
  }

  lemma ControlInvariant(h: Handler<Server>, w: World, control: Control)
    requires WorldInvariant(h, w)
    ensures WorldInvariant(h, Managed(w, control))
  {
    ControlRuns(h, w.server, w.log, control);
    ControlAccounted(w.connections, w.log, control);
    GenerationsStay(h, w.connections, w.log, ControlRan(control));
    StaysFresh(h, w.connections, w.log, ControlRan(control));
  }

  lemma ArriveInvariant(h: Handler<Server>, w: World, id: nat, chunk: seq<byte>)
    requires WorldInvariant(h, w)
    ensures WorldInvariant(h, Arrived(w, id, chunk))
  {
    if id in w.connections && w.connections[id].open {
      StreamGrows(w.connections[id].handled, w.connections[id].buffer, chunk);
      ConnectionChanges(h, w, id, Fed(w.connections[id], chunk));
    }
  }

  lemma Fresh(h: Handler<Server>, log: seq<LogEntry>, c: Connection)
    requires c == Connection(Resets(h, log), |log|, [], [], [], true)
    ensures Counts(h, c, log) && Accounted(c, [])
  {
    assert log[..|log|] == log;
  }

  lemma NewIsAccounted(connections: map<nat, Connection>, log: seq<LogEntry>, id: nat, c: Connection)
    requires AllAccounted(connections, log) && id !in connections && Accounted(c, [])
    ensures AllAccounted(connections[id := c], log)
  {
  }

  lemma NewCounts(h: Handler<Server>, connections: map<nat, Connection>, log: seq<LogEntry>, id: nat, c: Connection)
    requires GenerationsCount(h, connections, log) && Counts(h, c, log)
    ensures GenerationsCount(h, connections[id := c], log)
  {
  }

  lemma NewConnection(h: Handler<Server>, w: World, id: nat, c: Connection)
    requires WorldInvariant(h, w) && id !in w.connections && Counts(h, c, w.log) && Accounted(c, [])
    ensures WorldInvariant(h, WithConnection(w, id, c))
  {
    NewIsAccounted(w.connections, w.log, id, c);
    NewCounts(h, w.connections, w.log, id, c);
    OpeningsDecide(h, w.connections, w.connections[id := c], w.log);
  }

  lemma ConnectInvariant(h: Handler<Server>, w: World, id: nat)
    requires WorldInvariant(h, w)
    ensures WorldInvariant(h, Connected(w, id))
  {
    if id !in w.connections {
      var c := Connection(w.server.generation, |w.log|, [], [], [], true);
      Fresh(h, w.log, c);
      NewConnection(h, w, id, c);
    }
  }

  lemma DisconnectInvariant(h: Handler<Server>, w: World, id: nat)
    requires WorldInvariant(h, w)
    ensures WorldInvariant(h, Disconnected(w, id))
  {
    if id in w.connections {
      CloseInvariant(h, w, id);
    }
  }

  lemma ActInvariant(h: Handler<Server>, w: World, a: Action)
    requires Reliable(h) && WorldInvariant(h, w)
    ensures WorldInvariant(h, Act(h, w, a))
  {
    match a
    case Proceed(id) => ProceedInvariant(h, w, id);
    case Manage(control) => ControlInvariant(h, w, control);
    case Arrive(id, chunk) => ArriveInvariant(h, w, id, chunk);
    case Connect(id) => ConnectInvariant(h, w, id);
    case Disconnect(id) => DisconnectInvariant(h, w, id);
  }

  lemma {:induction false} ActsInvariant(h: Handler<Server>, w: World, actions: seq<Action>)
    requires Reliable(h) && WorldInvariant(h, w)
    ensures WorldInvariant(h, Acts(h, w, actions))
    decreases |actions|
  {
    if actions != [] {
      ActsInvariant(h, w, actions[..|actions| - 1]);
      ActInvariant(h, Acts(h, w, actions[..|actions| - 1]), actions[|actions| - 1]);
    }
  }

  // ---------------------------------------------------------------------------------------------
  // Overtaken connections.

  /** Opened before the last reset. */
  predicate Overtaken(w: World, id: nat) {
    id in w.connections && w.connections[id].generation < w.server.generation
  }

  ghost predicate KeepsGeneration(h: Handler<Server>) {
    forall s, r :: h(s, r).server.generation == s.generation
  }

  lemma OvertakenStep(h: Handler<Server>, w: World, a: Action, id: nat)
    requires KeepsGeneration(h) && Overtaken(w, id)
    ensures var t := Act(h, w, a);
      Overtaken(t, id) && t.connections[id].handled == w.connections[id].handled
  {
  }

  lemma {:induction false} OvertakenStays(h: Handler<Server>, w: World, actions: seq<Action>, id: nat)
    requires KeepsGeneration(h) && Overtaken(w, id)
    ensures var t := Acts(h, w, actions);
      Overtaken(t, id) && t.connections[id].handled == w.connections[id].handled
    decreases |actions|
  {
    if actions != [] {
      OvertakenStays(h, w, actions[..|actions| - 1], id);
      OvertakenStep(h, Acts(h, w, actions[..|actions| - 1]), actions[|actions| - 1], id);
    }
  }

  lemma {:induction false} ResetsOnlyGrow(h: Handler<Server>, log: seq<LogEntry>, i: nat)
    requires i <= |log|
    ensures Resets(h, log[..i]) <= Resets(h, log)
    decreases |log|
  {
    if i == |log| {
      assert log[..i] == log;
    } else {
      assert log[..|log| - 1][..i] == log[..i];
      ResetsOnlyGrow(h, log[..|log| - 1], i);
    }
  }

  lemma GenerationIsOld(h: Handler<Server>, w: World, id: nat)
    requires WorldInvariant(h, w) && id in w.connections
    ensures w.connections[id].generation <= w.server.generation
  {
    assert Counts(h, w.connections[id], w.log);
    ResetsOnlyGrow(h, w.log, w.connections[id].since);
  }

  lemma ResetOvertakes(w: World, modelFails: bool, id: nat)
    requires id in w.connections && w.connections[id].generation <= w.server.generation && !w.server.failed
    ensures var t := Managed(w, Reset(modelFails)); Overtaken(t, id) && t.connections == w.connections
  {
  }

  lemma HandledIsLogged(h: Handler<Server>, w: World, id: nat)
    requires WorldInvariant(h, w) && id in w.connections
    ensures w.connections[id].handled == RequestsOf(w.log, id)
  {
  }

  lemma NothingRunsAfterReset(h: Handler<Server>, w: World, modelFails: bool, after: seq<Action>, id: nat)
    requires Reliable(h) && KeepsGeneration(h)
    requires WorldInvariant(h, w) && !w.server.failed && id in w.connections
    ensures var t := Acts(h, Managed(w, Reset(modelFails)), after);
      id in t.connections && RequestsOf(t.log, id) == RequestsOf(w.log, id)
  {
    var reset := Managed(w, Reset(modelFails));
    GenerationIsOld(h, w, id);
    ResetOvertakes(w, modelFails, id);
    OvertakenStays(h, reset, after, id);
    ControlInvariant(h, w, Reset(modelFails));
    ActsInvariant(h, reset, after);
    HandledIsLogged(h, w, id);
    HandledIsLogged(h, Acts(h, reset, after), id);
  }

  lemma {:induction false} FailedStays(h: Handler<Server>, w: World, actions: seq<Action>)
    requires w.server.failed
    ensures Acts(h, w, actions).server == w.server
    decreases |actions|
  {
    if actions != [] {
      FailedStays(h, w, actions[..|actions| - 1]);
    }
  }

  // ---------------------------------------------------------------------------------------------
  // The host itself.

  lemma HostKeepsGeneration(s: Server, r: Request)
    ensures SameStanding(s, HandleFrame(s, r).server)
  {
  }

  lemma HostIsReliable()
    ensures Reliable(HandleFrame) && KeepsGeneration(HandleFrame)
  {
    forall s, r ensures SameStanding(s, HandleFrame(s, r).server) {
      HostKeepsGeneration(s, r);
    }
    forall s, r | ServerInvariant(s) ensures HandleFrame(s, r).Answered? && ServerInvariant(HandleFrame(s, r).server) {
      FrameKeeps(s, r);
    }
  }

  /** The host after some actions from start-up. */
  function Run(actions: seq<Action>): World {
    Acts(HandleFrame, StartWorld(), actions)
  }

  /** In every interleaving of connections and control requests, the registers and sequences are those
      of running the same sections one after another; no section ran for a connection with a reset
      between its opening and that section, or after a failed reset; and each connection ran its own
      frames once and in order. */
  lemma EveryInterleavingIsSequential(actions: seq<Action>)
    ensures WorldInvariant(HandleFrame, Run(actions))
  {
    HostIsReliable();
    StartInvariant();
    ActsInvariant(HandleFrame, StartWorld(), actions);
  }

  /** What a connection ran is the beginning of what its bytes say. */
  lemma ConnectionsRunTheirOwnFrames(actions: seq<Action>, id: nat)
    ensures var w := Run(actions);
      id in w.connections ==> RequestsOf(w.log, id) <= Frames(w.connections[id].arrived)
  {
    EveryInterleavingIsSequential(actions);
    var w := Run(actions);
    if id in w.connections {
      FramesOfStream(RequestsOf(w.log, id), w.connections[id].buffer);
    }
  }

  /** Whatever it had received or still receives, an overtaken connection puts nothing more through the
      device, in any run and from any state at all. */
  lemma OvertakenIsOver(w: World, actions: seq<Action>, id: nat)
    requires Overtaken(w, id)
    ensures var t := Acts(HandleFrame, w, actions);
      Overtaken(t, id) && t.connections[id].handled == w.connections[id].handled
  {
    HostIsReliable();
    OvertakenStays(HandleFrame, w, actions, id);
  }

  /** A reset, successful or not, overtakes every connection there is: none of their frames contributes
      after it. */
  lemma ResetEndsEveryConnection(before: seq<Action>, modelFails: bool, after: seq<Action>, id: nat)
    requires !Run(before).server.failed && id in Run(before).connections
    ensures var t := Acts(HandleFrame, Managed(Run(before), Reset(modelFails)), after);
      id in t.connections && RequestsOf(t.log, id) == RequestsOf(Run(before).log, id)
  {
    HostIsReliable();
    EveryInterleavingIsSequential(before);
    NothingRunsAfterReset(HandleFrame, Run(before), modelFails, after, id);
  }

  /** A failed reset freezes the registers and the sequences for good, whatever is sent afterwards. */
  lemma FailureFreezes(w: World, actions: seq<Action>)
    requires w.server.failed
    ensures Acts(HandleFrame, w, actions).server == w.server
  {
    FailedStays(HandleFrame, w, actions);
  }
}
