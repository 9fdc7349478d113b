/** Callers and workers in any order: who writes which record, and when one can still change. */
module OperationTheorems {
  import opened Options
  import opened Operation

  /** Where a worker thread is: inside its action, or about to record how it ended. */
  datatype Phase = Working | Ending(code: Option<Code>)

  /** The SUT, its live threads by operation, the clock, and when each operation started, when its worker
      passed the last check and when the SUT was closed. */
  datatype System<V> = System(
    sut: State<V>, threads: map<nat, Phase>, now: real, timeout: real,
    started: seq<real>, passed: map<nat, real>, closedAt: Option<real>)

  datatype Step<V> =
    | Wait(time: real)
    | StartOperation
    | Observe(worker: nat, values: V)
    | Announce(worker: nat, message: string)
    | Check(worker: nat, final: bool)
    | Raise(worker: nat, code: Code)
    | Finish(worker: nat)
    | Close

  function Initial<V>(timeout: real): System<V> {
    System(State(false, None, [], [], 0.0), map[], 0.0, timeout, [], map[], None)
  }

  predicate Works<V>(s: System<V>, worker: nat) {
    worker in s.threads && s.threads[worker].Working? && s.sut.current.Some?
  }

  predicate Ends<V>(s: System<V>, worker: nat) {
    worker in s.threads && s.threads[worker].Ending? && s.sut.current.Some?
  }

  function CheckMade<V>(s: System<V>, worker: nat, final: bool): System<V> {
    match Checked(s.sut, s.now)
    case Cancelled => s.(threads := s.threads[worker := Ending(Some("cancelled"))])
    case Overdue => s.(threads := s.threads[worker := Ending(Some("timeout"))])
    case Continue =>
      if final then s.(threads := s.threads[worker := Ending(None)], passed := s.passed[worker := s.now]) else s
  }

  /** One step; a step that is not possible leaves the system alone.  Whatever a worker writes goes to the
      current operation, not by name to its own. */
  function Next<V>(s: System<V>, step: Step<V>): System<V>
    requires s.sut.WellFormed()
    ensures Next(s, step).sut.WellFormed()
  {
    match step
    case Wait(time) => if time >= 0.0 then s.(now := s.now + time) else s
    case StartOperation =>
      var (sut, answer) := Begun(s.sut, s.now, s.timeout);
      if answer.Accepted?
      then s.(sut := sut, threads := s.threads[answer.operation := Working], started := s.started + [s.now])
      else s.(sut := sut)
    case Observe(worker, values) => if Works(s, worker) then s.(sut := Observed(s.sut, values, s.now)) else s
    case Announce(worker, message) => if Works(s, worker) then s.(sut := Announced(s.sut, message)) else s
    case Check(worker, final) => if Works(s, worker) then CheckMade(s, worker, final) else s
    case Raise(worker, code) => if Works(s, worker) then s.(threads := s.threads[worker := Ending(Some(code))]) else s
    case Finish(worker) =>
      if Ends(s, worker)
      then s.(sut := Ended(s.sut, s.threads[worker].code), threads := s.threads - {worker})
      else s
    case Close =>
      s.(sut := s.sut.(closed := true), closedAt := if s.closedAt.Some? then s.closedAt else Some(s.now))
  }

  function Run<V>(s: System<V>, steps: seq<Step<V>>): System<V>
    requires s.sut.WellFormed()
    ensures Run(s, steps).sut.WellFormed()
    decreases |steps|
  {
    if steps == [] then s else Run(Next(s, steps[0]), steps[1..])
  }

  // ---------------------------------------------------------------------------------------------
  // The invariant.

  /** The only thread there can be belongs to the newest operation, and only while that is running. */
  ghost predicate OneWorker<V>(sut: State<V>, threads: map<nat, Phase>) {
    var last := |sut.operations| - 1;
    && sut.current == (if last < 0 then None else Some(last))
    && (forall i | 0 <= i <= last :: sut.operations[i].progress.Running? <==> i in threads)
    && (forall w | w in threads :: w == last)
  }

  ghost predicate DeadlineIsItsOwn<V>(sut: State<V>, started: seq<real>, timeout: real) {
    |started| == |sut.operations| && (started != [] ==> sut.deadline == started[|started| - 1] + timeout)
  }

  /** Last checks were passed before the deadline of their own operation and before the SUT was closed. */
  ghost predicate ChecksInTime(closedAt: Option<real>, now: real, passed: map<nat, real>, started: seq<real>,
                               timeout: real)
  {
    && (closedAt.Some? ==> closedAt.value <= now)
    && (forall w | w in passed ::
          && w < |started| && passed[w] < started[w] + timeout && passed[w] <= now
          && (closedAt.Some? ==> passed[w] <= closedAt.value))
  }

  ghost predicate SuccessIsChecked<V>(operations: seq<Record<V>>, threads: map<nat, Phase>, passed: map<nat, real>) {
    && (forall w | w in threads && threads[w] == Ending(None) :: w in passed)
    && (forall i | 0 <= i < |operations| && operations[i].progress.Succeeded? :: i in passed)
  }

  ghost predicate LifecycleInvariant<V>(s: System<V>) {
    && s.sut.WellFormed()
    && OneWorker(s.sut, s.threads)
    && DeadlineIsItsOwn(s.sut, s.started, s.timeout)
    && (s.sut.closed <==> s.closedAt.Some?)
    && ChecksInTime(s.closedAt, s.now, s.passed, s.started, s.timeout)
    && SuccessIsChecked(s.sut.operations, s.threads, s.passed)
  }

  lemma StartKeeps<V>(s: System<V>)
    requires LifecycleInvariant(s)
    ensures LifecycleInvariant(Next(s, StartOperation))
  {
  }

  lemma ObserveKeeps<V>(s: System<V>, worker: nat, values: V)
    requires LifecycleInvariant(s)
    ensures LifecycleInvariant(Next(s, Observe(worker, values)))
  {
  }

  lemma PhaseChanges<V>(s: System<V>, worker: nat, phase: Phase)
    requires LifecycleInvariant(s) && worker in s.threads && phase != Ending(None)
    ensures LifecycleInvariant(s.(threads := s.threads[worker := phase]))
  {
  }

  lemma PassedCheck<V>(s: System<V>, worker: nat)
    requires LifecycleInvariant(s) && worker in s.threads && !s.sut.closed
    requires worker < |s.started| && s.now < s.started[worker] + s.timeout
    ensures LifecycleInvariant(s.(threads := s.threads[worker := Ending(None)], passed := s.passed[worker := s.now]))
  {
  }

  lemma CheckKeeps<V>(s: System<V>, worker: nat, final: bool)
    requires LifecycleInvariant(s) && Works(s, worker)
    ensures LifecycleInvariant(CheckMade(s, worker, final))
  {
    match Checked(s.sut, s.now)
    case Cancelled => PhaseChanges(s, worker, Ending(Some("cancelled")));
    case Overdue => PhaseChanges(s, worker, Ending(Some("timeout")));
    case Continue =>
      if final {
        assert s.now < s.started[worker] + s.timeout;
        PassedCheck(s, worker);
      }
  }

  lemma FinishKeeps<V>(s: System<V>, worker: nat)
    requires LifecycleInvariant(s)
    ensures LifecycleInvariant(Next(s, Finish(worker)))
  {
  }

  lemma NextKeeps<V>(s: System<V>, step: Step<V>)
    requires LifecycleInvariant(s)
    ensures LifecycleInvariant(Next(s, step))
  {
    match step
    case StartOperation => StartKeeps(s);
    case Observe(worker, values) => ObserveKeeps(s, worker, values);
    case Check(worker, final) => if Works(s, worker) { CheckKeeps(s, worker, final); }
    case Finish(worker) => FinishKeeps(s, worker);
    case _ =>
  }

  lemma {:induction false} RunKeeps<V>(s: System<V>, steps: seq<Step<V>>)
    requires LifecycleInvariant(s)
    ensures LifecycleInvariant(Run(s, steps))
    decreases |steps|
  {
    if steps != [] {
      NextKeeps(s, steps[0]);
      RunKeeps(Next(s, steps[0]), steps[1..]);
    }
  }

  // ---------------------------------------------------------------------------------------------
  // What callers can rely on, whatever the interleaving.

  predicate IsRunning<V>(s: System<V>, i: nat) {
    i < |s.sut.operations| && s.sut.operations[i].progress.Running?
  }

  lemma AtMostOneRuns<V>(timeout: real, steps: seq<Step<V>>, i: nat, j: nat)
    requires IsRunning(Run(Initial(timeout), steps), i) && IsRunning(Run(Initial(timeout), steps), j)
    ensures i == j
  {
    RunKeeps(Initial(timeout), steps);
  }

  /** A start is refused exactly when the SUT is closed or some operation still runs, and creates one
      more operation otherwise. */
  lemma StartIsRefused<V>(timeout: real, steps: seq<Step<V>>)
    ensures var s := Run(Initial(timeout), steps);
      var (sut, answer) := Begun(s.sut, s.now, s.timeout);
      && (answer.Accepted? <==> !s.sut.closed && forall i: nat :: !IsRunning(s, i))
      && (answer.Accepted? ==> sut.operations == s.sut.operations + [Record(Running, None, None)])
      && (!answer.Accepted? ==> sut == s.sut)
  {
    RunKeeps(Initial(timeout), steps);
    var s := Run(Initial(timeout), steps);
    if s.sut.current.Some? && !s.sut.closed {
      assert s.sut.Busy() <==> IsRunning(s, s.sut.current.value);
    }
  }

  /** The worker a step belongs to. */
  function WorkerOf<V>(step: Step<V>): Option<nat> {
    match step
    case Observe(worker, _) => Some(worker)
    case Announce(worker, _) => Some(worker)
    case Check(worker, _) => Some(worker)
    case Raise(worker, _) => Some(worker)
    case Finish(worker) => Some(worker)
    case _ => None
  }

  /** A record changes only while its operation runs, and only by its own worker. */
  lemma OnlyItsWorkerWrites<V>(s: System<V>, step: Step<V>, i: nat)
    requires LifecycleInvariant(s) && i < |s.sut.operations|
    ensures i < |Next(s, step).sut.operations|
    ensures Next(s, step).sut.operations[i] != s.sut.operations[i] ==>
      (step.Observe? || step.Finish?) && WorkerOf(step) == Some(i) && IsRunning(s, i)
  {
  }

  function Author<V>(s: System<V>, step: Step<V>): nat {
    if WorkerOf(step).Some? then WorkerOf(step).value else |s.sut.operations|
  }

  function Logged<V>(s: System<V>, operation: nat, message: string): seq<Entry> {
    Trimmed(s.sut.events + [Entry(operation, message)])
  }

  /** What a step has to say, if it says anything. */
  function MessageOf<V>(s: System<V>, step: Step<V>): string {
    match step
    case Announce(_, message) => message
    case Finish(worker) =>
      if worker in s.threads && s.threads[worker].Ending? && s.threads[worker].code.Some?
      then s.threads[worker].code.value else "succeeded"
    case _ => "started"
  }

  lemma FinishIsLogged<V>(s: System<V>, worker: nat)
    requires LifecycleInvariant(s) && Ends(s, worker)
    ensures Next(s, Finish(worker)).sut.events == Logged(s, worker, MessageOf(s, Finish(worker)))
  {
  }

  /** The steps that have something to say: an announcement, the end of an operation, an accepted start. */
  predicate Speaks<V>(s: System<V>, step: Step<V>)
    requires s.sut.WellFormed()
  {
    match step
    case Announce(worker, _) => Works(s, worker)
    case Finish(worker) => Ends(s, worker)
    case StartOperation => !s.sut.closed && !s.sut.Busy()
    case _ => false
  }

  /** So every event carries the operation of the worker that wrote it, or of the start. */
  lemma EventsCarryTheirOperation<V>(s: System<V>, step: Step<V>)
    requires LifecycleInvariant(s)
    ensures Next(s, step).sut.events ==
      if Speaks(s, step) then Logged(s, Author(s, step), MessageOf(s, step)) else s.sut.events
  {
    match step
    case Finish(worker) =>
      if Ends(s, worker) {
        FinishIsLogged(s, worker);
      }
    case _ =>
  }

  lemma {:induction false} EndedNeverChanges<V>(s: System<V>, steps: seq<Step<V>>, i: nat)
    requires LifecycleInvariant(s) && i < |s.sut.operations| && !IsRunning(s, i)
    ensures var t := Run(s, steps); i < |t.sut.operations| && t.sut.operations[i] == s.sut.operations[i]
    decreases |steps|
  {
    if steps != [] {
      NextKeeps(s, steps[0]);
      OnlyItsWorkerWrites(s, steps[0], i);
      EndedNeverChanges(Next(s, steps[0]), steps[1..], i);
    }
  }

  lemma CloseStays<V>(s: System<V>, step: Step<V>)
    requires LifecycleInvariant(s) && s.sut.closed
    ensures var t := Next(s, step);
      && t.sut.closed && |t.sut.operations| == |s.sut.operations| && t.threads.Keys <= s.threads.Keys
      && (s.threads == map[] ==> t.threads == map[] && t.sut == s.sut)
  {
  }

  /** After closing nothing starts; once the last worker is gone nothing changes at all. */
  lemma {:induction false} NothingStartsAfterClose<V>(s: System<V>, steps: seq<Step<V>>)
    requires LifecycleInvariant(s) && s.sut.closed
    ensures var t := Run(s, steps);
      && t.sut.closed && |t.sut.operations| == |s.sut.operations| && t.threads.Keys <= s.threads.Keys
      && (s.threads == map[] ==> t.sut == s.sut)
    decreases |steps|
  {
    if steps != [] {
      NextKeeps(s, steps[0]);
      CloseStays(s, steps[0]);
      NothingStartsAfterClose(Next(s, steps[0]), steps[1..]);
    }
  }

  lemma {:induction false} TimeoutStays<V>(s: System<V>, steps: seq<Step<V>>)
    requires s.sut.WellFormed()
    ensures Run(s, steps).timeout == s.timeout
    decreases |steps|
  {
    if steps != [] {
      TimeoutStays(Next(s, steps[0]), steps[1..]);
    }
  }

  /** An operation that succeeded passed its last check in its own time, before any close. */
  lemma SuccessIsInTime<V>(timeout: real, steps: seq<Step<V>>, i: nat)
    requires var s := Run(Initial(timeout), steps);
      i < |s.sut.operations| && s.sut.operations[i].progress.Succeeded?
    ensures var s := Run(Initial(timeout), steps);
      && i in s.passed && i < |s.started| && s.passed[i] < s.started[i] + timeout
      && (s.closedAt.Some? ==> s.passed[i] <= s.closedAt.value)
  {
    RunKeeps(Initial(timeout), steps);
    TimeoutStays(Initial(timeout), steps);
  }

  // ---------------------------------------------------------------------------------------------
  // What is recorded is what happened.

  /** A worker about to end records, in its own operation, how it ended, and nothing else of it. */
  lemma FinishRecords<V>(s: System<V>, worker: nat)
    requires LifecycleInvariant(s) && Ends(s, worker)
    ensures worker < |s.sut.operations|
    ensures var t, code := Next(s, Finish(worker)), s.threads[worker].code;
      && t.sut.operations == s.sut.operations[worker := s.sut.operations[worker].(progress :=
           if code == None then Succeeded else Failed(code.value))]
      && t.threads == s.threads - {worker} && t.sut.closed == s.sut.closed
  {
  }

  /** A check that comes after the close cancels, one that comes too late times out, and only the last one
      in time lets an operation succeed. */
  lemma ChecksDecide<V>(s: System<V>, worker: nat, final: bool)
    requires LifecycleInvariant(s) && Works(s, worker)
    ensures worker < |s.started|
    ensures var t := Next(s, Check(worker, final));
      && worker in t.threads
      && (s.closedAt.Some? ==> t.threads[worker] == Ending(Some("cancelled")))
      && (s.closedAt.None? && s.now >= s.started[worker] + s.timeout ==> t.threads[worker] == Ending(Some("timeout")))
      && (s.closedAt.None? && s.now < s.started[worker] + s.timeout ==>
            t.threads[worker] == if final then Ending(None) else Working)
  {
  }

  /** An error the action raised is the one recorded. */
  lemma RaisedIsRecorded<V>(s: System<V>, worker: nat, code: Code)
    requires LifecycleInvariant(s) && Works(s, worker)
    ensures var t := Next(Next(s, Raise(worker, code)), Finish(worker));
      worker < |t.sut.operations| && t.sut.operations[worker].progress == Failed(code)
  {
  }

  /** What an operation observed last is what its record shows, with the time. */
  lemma ObservedIsRecorded<V>(s: System<V>, worker: nat, values: V)
    requires LifecycleInvariant(s) && Works(s, worker)
    ensures var t := Next(s, Observe(worker, values)).sut.operations;
      && worker < |t| == |s.sut.operations|
      && t[worker] == Record(s.sut.operations[worker].progress, Some(values), Some(s.now))
  {
  }

  /** A new operation runs, is the current one, has observed nothing and has the whole timeout ahead. */
  lemma StartedIsFresh<V>(s: System<V>)
    requires LifecycleInvariant(s) && !s.sut.closed && !s.sut.Busy()
    ensures var t, i := Next(s, StartOperation), |s.sut.operations|;
      && Begun(s.sut, s.now, s.timeout).1 == Accepted(i)
      && t.sut.operations == s.sut.operations + [Record(Running, None, None)]
      && t.sut.current == Some(i) && t.sut.deadline == s.now + s.timeout && i in t.threads
  {
  }

  /** Time passes by waiting alone, and never goes back. */
  lemma OnlyWaitingTakesTime<V>(s: System<V>, step: Step<V>)
    requires s.sut.WellFormed()
    ensures Next(s, step).now == s.now + if step.Wait? && step.time > 0.0 then step.time else 0.0
  {
  }

  /** The event log keeps the newest entries, in order, and no more than 2000. */
  lemma LogKeepsTheNewest(events: seq<Entry>)
    ensures Trimmed(events) == if |events| <= 2000 then events else events[|events| - 2000..]
    ensures |Trimmed(events)| <= 2000
  {
  }
}
