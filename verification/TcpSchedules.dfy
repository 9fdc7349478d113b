/** What the interleaving leaves possible: a connection that is left alone does all that it would do if it
    were the only one, and each kind of end closes it. */
module TcpSchedules {
  import opened Bytes
  import opened Modbus
  import opened Framing
  import opened TcpService
  import opened TcpInterleaving

  /** The connection is open and no reset has overtaken it. */
  predicate Current(w: World, id: nat) {
    id in w.connections && w.connections[id].open && InForce(w.server, w.connections[id].generation)
  }

  /** A connection that has come to what a session has. */
  predicate HasCome(c: Connection, x: Session<Server>) {
    c.handled == x.handled && c.open == x.open && (x.open ==> c.buffer == x.buffer)
  }

  predicate Matches(w: World, id: nat, x: Session<Server>) {
    id in w.connections && HasCome(w.connections[id], x) && w.server == x.server
  }

  predicate Concerns(a: Action, id: nat) {
    match a
    case Connect(i) => i == id
    case Arrive(i, _) => i == id
    case Proceed(i) => i == id
    case Disconnect(i) => i == id
    case Manage(_) => false
  }

  predicate ConcernsOnly(actions: seq<Action>, id: nat) {
    forall a | a in actions :: Concerns(a, id)
  }

  lemma {:induction false} ActsAppend(h: Handler<Server>, w: World, first: seq<Action>, second: seq<Action>)
    ensures Acts(h, w, first + second) == Acts(h, Acts(h, w, first), second)
    decreases |second|
  {
    if second == [] {
      assert first + second == first;
    } else {
      var n := |first + second|;
      assert (first + second)[..n - 1] == first + second[..|second| - 1];
      ActsAppend(h, w, first, second[..|second| - 1]);
    }
  }

  lemma OneFirst(h: Handler<Server>, w: World, a: Action, rest: seq<Action>)
    ensures Acts(h, w, [a] + rest) == Acts(h, Act(h, w, a), rest)
  {
    ActsAppend(h, w, [a], rest);
    assert [a][..0] == [];
  }

  lemma ProceedMatches(w: World, id: nat, x: Session<Server>)
    requires Matches(w, id, x) && Current(w, id) && DecodeRequest(x.buffer).Frame?
    ensures var d, t := DecodeRequest(x.buffer), Act(HandleFrame, w, Proceed(id));
      && d.used <= |x.buffer|
      && Matches(t, id, AfterFrame(Section(w.connections[id].generation), x, d.request, d.used))
      && t.connections[id].generation == w.connections[id].generation
      && t.connections == w.connections[id := t.connections[id]]
      && (t.connections[id].open ==> Current(t, id))
  {
    HostKeepsGeneration(w.server, DecodeRequest(x.buffer).request);
  }

  /** Left alone, it handles every complete frame that it has. */
  lemma {:induction false} DrainsAlone(w: World, id: nat, x: Session<Server>) returns (actions: seq<Action>)
    requires Matches(w, id, x) && Current(w, id)
    ensures ConcernsOnly(actions, id)
    ensures var generation, t := w.connections[id].generation, Acts(HandleFrame, w, actions);
      && Matches(t, id, Drain(Section(generation), x)) && t.connections[id].generation == generation
      && t.connections == w.connections[id := t.connections[id]]
      && (t.connections[id].open ==> Current(t, id))
    decreases |x.buffer|
  {
    var d := DecodeRequest(x.buffer);
    if d.Incomplete? {
      actions := [];
    } else {
      var t := Act(HandleFrame, w, Proceed(id));
      actions := [];
      if d.Frame? {
        ProceedMatches(w, id, x);
        var next := AfterFrame(Section(w.connections[id].generation), x, d.request, d.used);
        if next.open {
          actions := DrainsAlone(t, id, next);
        }
      }
      OneFirst(HandleFrame, w, Proceed(id), actions);
      actions := [Proceed(id)] + actions;
    }
  }

  lemma ReceivesAlone(w: World, id: nat, x: Session<Server>, chunk: seq<byte>) returns (actions: seq<Action>)
    requires Matches(w, id, x) && Current(w, id)
    ensures ConcernsOnly(actions, id)
    ensures var generation, t := w.connections[id].generation, Acts(HandleFrame, w, actions);
      && Matches(t, id, Receive(Section(generation), x, chunk)) && t.connections[id].generation == generation
      && t.connections == w.connections[id := t.connections[id]]
      && (t.connections[id].open ==> Current(t, id))
  {
    var t := Act(HandleFrame, w, Arrive(id, chunk));
    actions := [];
    if |x.buffer + chunk| <= MAX_BUFFER {
      actions := DrainsAlone(t, id, x.(buffer := x.buffer + chunk));
    }
    OneFirst(HandleFrame, w, Arrive(id, chunk), actions);
    actions := [Arrive(id, chunk)] + actions;
  }

  lemma {:induction false} ServesAlone(w: World, id: nat, x: Session<Server>, chunks: seq<seq<byte>>)
    returns (actions: seq<Action>)
    requires Matches(w, id, x) && (x.open ==> Current(w, id))
    ensures ConcernsOnly(actions, id)
    ensures var t := Acts(HandleFrame, w, actions);
      && Matches(t, id, ReceiveAll(Section(w.connections[id].generation), x, chunks))
      && t.connections == w.connections[id := t.connections[id]]
    decreases |chunks|
  {
    var h := Section(w.connections[id].generation);
    actions := [];
    if !x.open {
      ClosedStaysClosed(h, x, chunks);
    } else if chunks != [] {
      var first := ReceivesAlone(w, id, x, chunks[0]);
      var rest := ServesAlone(Acts(HandleFrame, w, first), id, Receive(h, x, chunks[0]), chunks[1..]);
      ActsAppend(HandleFrame, w, first, rest);
      actions := first + rest;
    }
  }

  /** From any moment of any run on, a new connection can be served all its chunks: if nothing comes in
      between, it handles what one connection on its own handles, ends as that would, and leaves registers
      and sequences as that would; no other connection is touched. */
  lemma LeftAloneItIsServed(w: World, id: nat, chunks: seq<seq<byte>>) returns (actions: seq<Action>)
    requires id !in w.connections && !w.server.failed
    ensures ConcernsOnly(actions, id)
    ensures var t := Acts(HandleFrame, w, actions);
      && Matches(t, id, ReceiveAll(Section(w.server.generation), Opened(w.server), chunks))
      && forall other | other in w.connections :: other in t.connections && t.connections[other] == w.connections[other]
  {
    var t := Act(HandleFrame, w, Connect(id));
    var rest := ServesAlone(t, id, Opened(w.server), chunks);
    OneFirst(HandleFrame, w, Connect(id), rest);
    actions := [Connect(id)] + rest;
  }

  // ---------------------------------------------------------------------------------------------
  // Ends.

  /** A connection that a reset has overtaken, or whose host has failed, is closed at its next frame, and
      that frame is not handled. */
  lemma OvertakenIsClosed(w: World, id: nat)
    requires id in w.connections && w.connections[id].open && !InForce(w.server, w.connections[id].generation)
    requires DecodeRequest(w.connections[id].buffer).Frame?
    ensures Act(HandleFrame, w, Proceed(id)) == w.(connections := w.connections[id := w.connections[id].(open := false)])
  {
  }

  /** A peer that leaves closes its connection and no other. */
  lemma LeavingCloses(w: World, id: nat)
    requires id in w.connections
    ensures Act(HandleFrame, w, Disconnect(id)) == w.(connections := w.connections[id := w.connections[id].(open := false)])
  {
  }

  /** A closed connection neither receives nor handles anything more. */
  lemma ClosedIsOver(w: World, id: nat, chunk: seq<byte>)
    requires id in w.connections && !w.connections[id].open
    ensures Act(HandleFrame, w, Proceed(id)) == w && Act(HandleFrame, w, Arrive(id, chunk)) == w
    ensures Act(HandleFrame, w, Connect(id)) == w
  {
  }
}
