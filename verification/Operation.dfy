/** Business operations of a SUT: one worker thread at a time, started by a caller, writing its record
    through the shared `current`.  Identities are positions in the order of creation. */
module Operation {
  import opened Options

  /** Error codes are never empty. */
  type Code = s: string | s != "" witness "timeout"

  datatype Progress = Running | Succeeded | Failed(code: Code)

  datatype Record<V> = Record(progress: Progress, observed: Option<V>, synced: Option<real>)

  datatype Entry = Entry(operation: nat, message: string)

  datatype State<V> = State(
    closed: bool, current: Option<nat>, operations: seq<Record<V>>, events: seq<Entry>, deadline: real)
  {
    predicate WellFormed() {
      current.Some? ==> current.value < |operations|
    }

    predicate Busy()
      requires WellFormed()
    {
      current.Some? && operations[current.value].progress.Running?
    }
  }

  datatype Answer = Accepted(operation: nat) | Closed | Busy

  const MAX_EVENTS := 2000

  function Trimmed(events: seq<Entry>): seq<Entry> {
    if |events| > MAX_EVENTS then events[|events| - MAX_EVENTS..] else events
  }

  function Announced<V>(s: State<V>, message: string): State<V>
    requires s.current.Some?
  {
    s.(events := Trimmed(s.events + [Entry(s.current.value, message)]))
  }

  function Begun<V>(s: State<V>, now: real, timeout: real): (State<V>, Answer)
    requires s.WellFormed()
  {
    if s.closed then (s, Closed)
    else if s.Busy() then (s, Busy)
    else
      var identity := |s.operations|;
      var t := s.(current := Some(identity), operations := s.operations + [Record(Running, None, None)],
                  deadline := now + timeout);
      (Announced(t, "started"), Accepted(identity))
  }

  function Observed<V>(s: State<V>, values: V, now: real): State<V>
    requires s.WellFormed() && s.current.Some?
  {
    var i := s.current.value;
    s.(operations := s.operations[i := s.operations[i].(observed := Some(values), synced := Some(now))])
  }

  function Ended<V>(s: State<V>, code: Option<Code>): State<V>
    requires s.WellFormed() && s.current.Some?
  {
    var i, progress := s.current.value, if code.Some? then Failed(code.value) else Succeeded;
    Announced(s.(operations := s.operations[i := s.operations[i].(progress := progress)]),
              if code.Some? then code.value else "succeeded")
  }

  datatype Verdict = Continue | Cancelled | Overdue

  function Checked<V>(s: State<V>, now: real): Verdict {
    if s.closed then Cancelled else if now >= s.deadline then Overdue else Continue
  }

  class OperationSUT<V> {
    const timeout: real
    var closed: bool
    var current: Option<nat>
    var operations: seq<Record<V>>
    var events: seq<Entry>
    var deadline: real

    function View(): State<V>
      reads this
    {
      State(closed, current, operations, events, deadline)
    }

    constructor (timeout: real)
      requires timeout > 0.0
      ensures this.timeout == timeout && View() == State(false, None, [], [], 0.0)
    {
      this.timeout := timeout;
      closed, current, operations, events, deadline := false, None, [], [], 0.0;
    }

    method Event(message: string)
      requires current.Some?
      modifies this`events
      ensures View() == Announced(old(View()), message)
    {
      events := events + [Entry(current.value, message)];
      if |events| > MAX_EVENTS {
        events := events[|events| - MAX_EVENTS..];
      }
    }

    method Start(now: real) returns (answer: Answer)
      requires View().WellFormed()
      modifies this
      ensures (View(), answer) == Begun(old(View()), now, timeout)
    {
      if closed {
        return Closed;
      }
      if current.Some? && operations[current.value].progress.Running? {
        return Busy;
      }
      var identity := |operations|;
      current := Some(identity);
      operations := operations + [Record(Running, None, None)];
      deadline := now + timeout;
      Event("started");
      answer := Accepted(identity);
    }

    method Observe(values: V, now: real)
      requires View().WellFormed() && current.Some?
      modifies this`operations
      ensures View() == Observed(old(View()), values, now)
    {
      var record := operations[current.value];
      operations := operations[current.value := record.(observed := Some(values), synced := Some(now))];
    }

    method Checkpoint(now: real) returns (verdict: Verdict)
      ensures verdict == Checked(View(), now)
    {
      if closed {
        return Cancelled;
      }
      if now >= deadline {
        return Overdue;
      }
      return Continue;
    }

    /** The last thing a worker does. */
    method Finish(code: Option<Code>)
      requires View().WellFormed() && current.Some?
      modifies this
      ensures View() == Ended(old(View()), code)
    {
      var record := operations[current.value];
      if code.Some? {
        operations := operations[current.value := record.(progress := Failed(code.value))];
        Event(code.value);
      } else {
        operations := operations[current.value := record.(progress := Succeeded)];
        Event("succeeded");
      }
    }

    method GetStatus(operation: nat) returns (record: Option<Record<V>>)
      ensures record.Some? <==> operation < |operations|
      ensures record.Some? ==> record.value == operations[operation]
    {
      record := if operation < |operations| then Some(operations[operation]) else None;
    }

    method Close()
      modifies this`closed
      ensures View() == old(View()).(closed := true)
    {
      closed := true;
    }
  }
}
