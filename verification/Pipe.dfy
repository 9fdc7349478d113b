/** Requests over a child's stdin and stdout: bare lines both ways, with nothing in them to say which
    reply belongs to which request.

    Callers, the worker thread and the child take steps in any order; timeouts and failures may come
    at any moment.  A job carries the queue its caller waits on; `number` is the identity of that
    queue, and never goes over the pipe. */
module Pipe {
  /** How a dispatch in the child ends: a value, or one of the two families of errors it reports.  An
      error outside both ends the child. */
  datatype Outcome = Returned(value: string) | Unavailable(error: string) | Refused(error: string) | Crashed

  /** The JSON object on a reply line. */
  datatype Response = Response(ok: bool, environment: bool, text: string)

  /** A line on stdout: a response, or anything the parent's checks refuse. */
  datatype Reply = Proper(response: Response) | Garbage

  const TOO_LARGE := "Pipe message is too large"

  function Reported(outcome: Outcome, fits: bool): Response
    requires !outcome.Crashed?
  {
    if !fits then Response(false, true, TOO_LARGE)
    else
      match outcome
      case Returned(value) => Response(true, false, value)
      case Unavailable(error) => Response(false, true, error)
      case Refused(error) => Response(false, false, error)
  }

  /** What `request` returns or raises for a response. */
  function Understood(response: Response): Outcome {
    if response.ok then Returned(response.text)
    else if response.environment then Unavailable(response.text)
    else Refused(response.text)
  }

  datatype Job = Work(number: nat, line: string) | Quit

  datatype Message = Arrived(response: Response) | Failure

  /** Where the caller holding the lock is inside `request`. */
  datatype Progress = Entered(line: string) | Admitted(line: string) | Waiting(line: string, number: nat)

  /** A held lock, and when it was taken: the place of that `Acquire` in the run. */
  datatype Lock = Free | Held(caller: nat, at: nat, progress: Progress)

  datatype Worker = Ready | Writing(number: nat, line: string) | Reading(number: nat) | Exited

  datatype Child = Listening | Replying(response: Response) | Gone

  /** One dispatch in the child: the line, how it ended and whether its reply fits in a message. */
  datatype Service = Service(line: string, outcome: Outcome, fits: bool)

  /** What the caller should learn of a dispatch. */
  function Deserved(service: Service): Outcome {
    if service.fits then service.outcome else Unavailable(TOO_LARGE)
  }

  datatype Result = Got(outcome: Outcome) | TimedOut | Broke

  /** How a request that was queued as `number` ended for the caller that took the lock at `at`. */
  datatype Ending = Ending(caller: nat, at: nat, line: string, number: nat, result: Result)

  datatype System = System(
    lock: Lock, closed: bool, failed: bool,
    jobs: seq<Job>, results: map<nat, Message>, worker: Worker,
    stdin: seq<string>, stdout: seq<Reply>, child: Child,
    // What has happened so far: lines queued and since when their callers held the lock, dispatches made,
    // replies read, endings, and the number of steps.
    queued: seq<string>, askers: seq<nat>, served: seq<Service>, read: nat, endings: seq<Ending>, time: nat)

  function Begin(): System {
    System(Free, false, false, [], map[], Ready, [], [], Listening, [], [], [], 0, [], 0)
  }

  datatype Step =
    | Acquire(caller: nat, line: string)
    | Check
    | Put
    | Collect
    | TimeOut
    | Close
    | TakeJob
    | Write(works: bool)
    | Read
    | ReadFails
    | ServeLine(outcome: Outcome, fits: bool)
    | SendReply(broken: bool)
    | ChildDies

  function Acquired(s: System, caller: nat, line: string): System {
    if s.lock.Free? then s.(lock := Held(caller, s.time, Entered(line))) else s
  }

  function Checked(s: System): System {
    if !s.lock.Held? || !s.lock.progress.Entered? then s
    else if s.closed || s.failed then s.(lock := Free)
    else s.(lock := Held(s.lock.caller, s.lock.at, Admitted(s.lock.progress.line)))
  }

  function Queued(s: System): System {
    if !s.lock.Held? || !s.lock.progress.Admitted? then s
    else
      var line, number := s.lock.progress.line, |s.queued|;
      s.(lock := Held(s.lock.caller, s.lock.at, Waiting(line, number)), jobs := s.jobs + [Work(number, line)],
         queued := s.queued + [line], askers := s.askers + [s.lock.at])
  }

  /** The caller leaves with its result; without one, `failed` is set for good. */
  function Release(s: System, result: Result): System
    requires s.lock.Held? && s.lock.progress.Waiting?
  {
    var ending := Ending(s.lock.caller, s.lock.at, s.lock.progress.line, s.lock.progress.number, result);
    s.(lock := Free, failed := s.failed || !result.Got?, endings := s.endings + [ending])
  }

  /** The worker hands its caller a failure and stops. */
  function GiveUp(s: System, number: nat): System {
    s.(results := s.results[number := Failure], worker := Exited)
  }

  function Collected(s: System): System {
    if !s.lock.Held? || !s.lock.progress.Waiting? || s.lock.progress.number !in s.results then s
    else
      match s.results[s.lock.progress.number] {
        case Arrived(response) => Release(s, Got(Understood(response)))
        case Failure => Release(s, Broke)
      }
  }

  function GivenUp(s: System): System {
    if !s.lock.Held? || !s.lock.progress.Waiting? || s.lock.progress.number in s.results then s
    else Release(s, TimedOut)
  }

  function Closed(s: System): System {
    if s.closed then s else s.(closed := true, jobs := s.jobs + [Quit])
  }

  function JobTaken(s: System): System {
    if !s.worker.Ready? || s.jobs == [] then s
    else
      match s.jobs[0] {
        case Quit => s.(jobs := s.jobs[1..], worker := Exited)
        case Work(number, line) => s.(jobs := s.jobs[1..], worker := Writing(number, line))
      }
  }

  function Wrote(s: System, works: bool): System {
    if !s.worker.Writing? then s
    else if works then s.(stdin := s.stdin + [s.worker.line], worker := Reading(s.worker.number))
    else GiveUp(s, s.worker.number)
  }

  function WasRead(s: System): System {
    if !s.worker.Reading? || s.stdout == [] then s
    else
      var rest := s.(stdout := s.stdout[1..], read := s.read + 1);
      match s.stdout[0] {
        case Proper(response) => rest.(results := s.results[s.worker.number := Arrived(response)], worker := Ready)
        case Garbage => GiveUp(rest, s.worker.number)
      }
  }

  function ReadFailed(s: System): System {
    if !s.worker.Reading? then s else GiveUp(s, s.worker.number)
  }

  /** A child that ends reads nothing more. */
  function Served(s: System, outcome: Outcome, fits: bool): System {
    if !s.child.Listening? || s.stdin == [] then s
    else if s.stdin[0] == "stop\n" || outcome.Crashed? then s.(child := Gone)
    else
      s.(stdin := s.stdin[1..], child := Replying(Reported(outcome, fits)),
         served := s.served + [Service(s.stdin[0], outcome, fits)])
  }

  function Replied(s: System, broken: bool): System {
    if !s.child.Replying? then s
    else s.(stdout := s.stdout + [if broken then Garbage else Proper(s.child.response)], child := Listening)
  }

  function Died(s: System): System {
    s.(child := Gone)
  }

  /** One step; a step that is not possible in a state leaves it alone. */
  function Moved(s: System, step: Step): System {
    match step
    case Acquire(caller, line) => Acquired(s, caller, line)
    case Check => Checked(s)
    case Put => Queued(s)
    case Collect => Collected(s)
    case TimeOut => GivenUp(s)
    case Close => Closed(s)
    case TakeJob => JobTaken(s)
    case Write(works) => Wrote(s, works)
    case Read => WasRead(s)
    case ReadFails => ReadFailed(s)
    case ServeLine(outcome, fits) => Served(s, outcome, fits)
    case SendReply(broken) => Replied(s, broken)
    case ChildDies => Died(s)
  }

  function Next(s: System, step: Step): System {
    Moved(s, step).(time := s.time + 1)
  }

  function Run(s: System, steps: seq<Step>): System
    decreases |steps|
  {
    if steps == [] then s else Run(Next(s, steps[0]), steps[1..])
  }

  lemma {:induction false} RunAppends(s: System, first: seq<Step>, second: seq<Step>)
    ensures Run(s, first + second) == Run(Run(s, first), second)
    decreases |first|
  {
    if first == [] {
      assert first + second == second;
    } else {
      assert (first + second)[1..] == first[1..] + second;
      RunAppends(Next(s, first[0]), first[1..], second);
    }
  }

  lemma RunOne(s: System, a: Step)
    ensures Run(s, [a]) == Next(s, a)
  {
    assert [a][1..] == [];
  }

  lemma RunTwo(s: System, a: Step, b: Step)
    ensures Run(s, [a, b]) == Next(Next(s, a), b)
  {
    assert [a, b][1..] == [b];
    RunOne(Next(s, a), b);
  }

  lemma RunThree(s: System, a: Step, b: Step, c: Step)
    ensures Run(s, [a, b, c]) == Next(Next(Next(s, a), b), c)
  {
    assert [a, b, c][1..] == [b, c];
    RunTwo(Next(s, a), b, c);
  }

  // ---------------------------------------------------------------------------------------------
  // The invariant.

  /** How many lines have been written: all those served or still in the pipe. */
  function Written(s: System): nat {
    |s.served| + |s.stdin|
  }

  /** The requests waiting in the job queue. */
  function Works(jobs: seq<Job>): seq<(nat, string)> {
    if jobs == [] then []
    else if jobs[0].Quit? then Works(jobs[1..])
    else [(jobs[0].number, jobs[0].line)] + Works(jobs[1..])
  }

  lemma {:induction false} WorksAppend(jobs: seq<Job>, job: Job)
    ensures Works(jobs + [job]) == Works(jobs) + if job.Quit? then [] else [(job.number, job.line)]
  {
    if jobs == [] {
      assert jobs + [job] == [job];
    } else {
      assert (jobs + [job])[1..] == jobs[1..] + [job];
      WorksAppend(jobs[1..], job);
    }
  }

  /** Lines travel in the order they were queued, and nothing else is ever written. */
  ghost predicate LinesInOrder(queued: seq<string>, served: seq<Service>, stdin: seq<string>) {
    && |served| + |stdin| <= |queued|
    && (forall i | 0 <= i < |served| :: served[i].line == queued[i])
    && (forall i | 0 <= i < |stdin| :: stdin[i] == queued[|served| + i])
  }

  /** Replies travel in the order of the dispatches, one each. */
  ghost predicate RepliesInOrder(served: seq<Service>, read: nat, stdout: seq<Reply>, child: Child) {
    && read + |stdout| <= |served|
    && (!child.Gone? ==> read + |stdout| == |served| - if child.Replying? then 1 else 0)
    && (child.Replying? ==> Understood(child.response) == Deserved(served[|served| - 1]))
    && (forall i | 0 <= i < |stdout| && stdout[i].Proper? ::
          Understood(stdout[i].response) == Deserved(served[read + i]))
  }

  /** The last request queued is the only one the worker can have in the queue or in hand. */
  ghost predicate WorkerInOrder(queued: seq<string>, works: seq<(nat, string)>, worker: Worker, read: nat, written: nat) {
    var last := |queued| - 1;
    && (works == [] || (last >= 0 && works == [(last, queued[last])]))
    && match worker
       case Ready => read == written == |queued| - |works|
       case Writing(number, line) =>
         works == [] && number == last && line == queued[last] && read == written == last
       case Reading(number) => works == [] && number == last && read == last && written == |queued|
       case Exited => true
  }

  predicate Outstanding(works: seq<(nat, string)>, worker: Worker) {
    works != [] || worker.Writing? || worker.Reading?
  }

  predicate Waits(lock: Lock) {
    lock.Held? && lock.progress.Waiting?
  }

  /** The lock and `failed` keep a second request out while one is outstanding. */
  ghost predicate LockInvariant(lock: Lock, failed: bool, queued: seq<string>, ended: nat, outstanding: bool) {
    && ended == |queued| - (if Waits(lock) then 1 else 0)
    && (Waits(lock) ==> lock.progress.number == |queued| - 1 && lock.progress.line == queued[|queued| - 1])
    && (failed ==> !lock.Held? || lock.progress.Entered?)
    && (!failed && !Waits(lock) ==> !outstanding)
  }

  /** A result is the response to the line its number stands for; a failure is the last one. */
  ghost predicate ResultsMatch(results: map<nat, Message>, total: nat, served: seq<Service>, outstanding: bool,
                               sealed: bool)
  {
    && (forall n | n in results :: n < total)
    && (outstanding ==> total - 1 !in results)
    && (forall n | n in results && results[n].Arrived? ::
          n < |served| && Understood(results[n].response) == Deserved(served[n]))
    && (forall n | n in results && results[n].Failure? :: n == total - 1 && sealed)
  }

  /** Requests end in the order they were queued; only the last can end badly. */
  ghost predicate EndingsMatch(endings: seq<Ending>, queued: seq<string>, served: seq<Service>, failed: bool) {
    && |endings| <= |queued|
    && (forall i | 0 <= i < |endings| :: endings[i].number == i && endings[i].line == queued[i])
    && (forall i | 0 <= i < |endings| && endings[i].result.Got? ::
          i < |served| && endings[i].result.outcome == Deserved(served[i]))
    && (forall i | 0 <= i < |endings| && !endings[i].result.Got? :: failed && i == |queued| - 1)
  }

  ghost predicate WireInvariant(s: System) {
    LinesInOrder(s.queued, s.served, s.stdin) && RepliesInOrder(s.served, s.read, s.stdout, s.child)
  }

  /** Once the worker has failed, the one caller waiting is the last. */
  predicate Sealed(s: System) {
    s.worker.Exited? && (s.failed || Waits(s.lock))
  }

  ghost predicate InHand(s: System) {
    var works := Works(s.jobs);
    && WorkerInOrder(s.queued, works, s.worker, s.read, Written(s))
    && LockInvariant(s.lock, s.failed, s.queued, |s.endings|, Outstanding(works, s.worker))
  }

  ghost predicate Settled(s: System) {
    && ResultsMatch(s.results, |s.queued|, s.served, Outstanding(Works(s.jobs), s.worker), Sealed(s))
    && EndingsMatch(s.endings, s.queued, s.served, s.failed)
  }

  ghost predicate RequestInvariant(s: System) {
    InHand(s) && Settled(s)
  }

  ghost predicate PipeInvariant(s: System) {
    WireInvariant(s) && RequestInvariant(s)
  }

  lemma ReleaseKeeps(s: System, result: Result)
    requires RequestInvariant(s) && Waits(s.lock)
    requires result.Got? ==>
      && !Outstanding(Works(s.jobs), s.worker)
      && |s.queued| <= |s.served| && result.outcome == Deserved(s.served[|s.queued| - 1])
      && forall n | n in s.results :: s.results[n].Arrived?
    ensures RequestInvariant(Release(s, result))
  {
  }

  /** Only one request waits in the queue: once it is taken, none does. */
  lemma FirstWork(jobs: seq<Job>)
    requires jobs != []
    ensures jobs[0].Quit? ==> Works(jobs[1..]) == Works(jobs)
    ensures jobs[0].Work? ==> |Works(jobs[1..])| == |Works(jobs)| - 1 && Works(jobs)[0] == (jobs[0].number, jobs[0].line)
  {
  }

  lemma AcquireKeeps(s: System, caller: nat, line: string)
    requires PipeInvariant(s)
    ensures PipeInvariant(Acquired(s, caller, line))
  {
  }

  lemma CheckKeeps(s: System)
    requires PipeInvariant(s)
    ensures PipeInvariant(Checked(s))
  {
  }

  lemma PutKeeps(s: System)
    requires PipeInvariant(s)
    ensures PipeInvariant(Queued(s))
  {
    if s.lock.Held? && s.lock.progress.Admitted? {
      WorksAppend(s.jobs, Work(|s.queued|, s.lock.progress.line));
    }
  }

  lemma CollectKeeps(s: System)
    requires PipeInvariant(s)
    ensures PipeInvariant(Collected(s))
  {
    if Waits(s.lock) && s.lock.progress.number in s.results {
      var m := s.results[s.lock.progress.number];
      ReleaseKeeps(s, if m.Arrived? then Got(Understood(m.response)) else Broke);
    }
  }

  lemma TimeOutKeeps(s: System)
    requires PipeInvariant(s)
    ensures PipeInvariant(GivenUp(s))
  {
    if Waits(s.lock) {
      ReleaseKeeps(s, TimedOut);
    }
  }

  lemma CloseKeeps(s: System)
    requires PipeInvariant(s)
    ensures PipeInvariant(Closed(s))
  {
    WorksAppend(s.jobs, Quit);
  }

  lemma TakeJobKeeps(s: System)
    requires PipeInvariant(s)
    ensures PipeInvariant(JobTaken(s))
  {
    if s.jobs != [] {
      FirstWork(s.jobs);
    }
  }

  lemma WriteKeeps(s: System, works: bool)
    requires PipeInvariant(s)
    ensures PipeInvariant(Wrote(s, works))
  {
  }

  lemma GiveUpKeeps(s: System)
    requires RequestInvariant(s) && (s.worker.Reading? || s.worker.Writing?)
    ensures RequestInvariant(GiveUp(s, s.worker.number))
  {
  }

  lemma NextReply(served: seq<Service>, read: nat, stdout: seq<Reply>, child: Child)
    requires RepliesInOrder(served, read, stdout, child) && stdout != []
    ensures RepliesInOrder(served, read + 1, stdout[1..], child)
  {
  }

  lemma ReadKeepsWire(s: System)
    requires WireInvariant(s)
    ensures WireInvariant(WasRead(s))
  {
    if s.worker.Reading? && s.stdout != [] {
      NextReply(s.served, s.read, s.stdout, s.child);
    }
  }

  lemma ResultArrives(results: map<nat, Message>, served: seq<Service>, number: nat, response: Response)
    requires ResultsMatch(results, number + 1, served, true, false)
    requires number < |served| && Understood(response) == Deserved(served[number])
    ensures ResultsMatch(results[number := Arrived(response)], number + 1, served, false, false)
  {
  }

  lemma ResponseKeeps(s: System, response: Response)
    requires PipeInvariant(s) && s.worker.Reading? && s.stdout != [] && s.stdout[0] == Proper(response)
    ensures RequestInvariant(WasRead(s))
  {
    assert !Sealed(s);
    ResultArrives(s.results, s.served, s.worker.number, response);
    assert WorkerInOrder(s.queued, Works(s.jobs), Ready, s.read + 1, Written(s));
  }

  lemma ReadKeeps(s: System)
    requires PipeInvariant(s)
    ensures RequestInvariant(WasRead(s))
  {
    if s.worker.Reading? && s.stdout != [] {
      var number := s.worker.number;
      match s.stdout[0]
      case Proper(response) => ResponseKeeps(s, response);
      case Garbage =>
        GiveUpKeeps(s);
        assert WasRead(s) == GiveUp(s, number).(stdout := s.stdout[1..], read := s.read + 1);
    }
  }

  lemma ReadFailsKeeps(s: System)
    requires PipeInvariant(s)
    ensures PipeInvariant(ReadFailed(s))
  {
    if s.worker.Reading? {
      GiveUpKeeps(s);
    }
  }

  lemma LineServed(queued: seq<string>, served: seq<Service>, stdin: seq<string>, service: Service)
    requires LinesInOrder(queued, served, stdin) && stdin != [] && service.line == stdin[0]
    ensures LinesInOrder(queued, served + [service], stdin[1..])
  {
  }

  lemma ReplyDue(served: seq<Service>, read: nat, stdout: seq<Reply>, service: Service)
    requires RepliesInOrder(served, read, stdout, Listening) && !service.outcome.Crashed?
    ensures RepliesInOrder(served + [service], read, stdout, Replying(Reported(service.outcome, service.fits)))
  {
  }

  lemma ServeKeepsWire(s: System, outcome: Outcome, fits: bool)
    requires WireInvariant(s)
    ensures WireInvariant(Served(s, outcome, fits))
  {
    if s.child.Listening? && s.stdin != [] && s.stdin[0] != "stop\n" && !outcome.Crashed? {
      var service := Service(s.stdin[0], outcome, fits);
      LineServed(s.queued, s.served, s.stdin, service);
      ReplyDue(s.served, s.read, s.stdout, service);
    }
  }

  /** A further dispatch does not touch what is known of the earlier ones. */
  lemma ServiceAdded(s: System, service: Service)
    requires Settled(s)
    ensures ResultsMatch(s.results, |s.queued|, s.served + [service], Outstanding(Works(s.jobs), s.worker), Sealed(s))
    ensures EndingsMatch(s.endings, s.queued, s.served + [service], s.failed)
  {
  }

  lemma WrittenStays(s: System, outcome: Outcome, fits: bool)
    ensures Written(Served(s, outcome, fits)) == Written(s)
  {
  }

  lemma ServeKeepsInHand(s: System, outcome: Outcome, fits: bool)
    requires InHand(s)
    ensures InHand(Served(s, outcome, fits))
  {
    WrittenStays(s, outcome, fits);
  }

  lemma ServeKeepsSettled(s: System, outcome: Outcome, fits: bool)
    requires Settled(s)
    ensures Settled(Served(s, outcome, fits))
  {
    if s.stdin != [] {
      ServiceAdded(s, Service(s.stdin[0], outcome, fits));
    }
  }

  lemma ReplyKeepsWire(s: System, broken: bool)
    requires WireInvariant(s)
    ensures WireInvariant(Replied(s, broken))
  {
  }

  lemma ReplyKeeps(s: System, broken: bool)
    requires RequestInvariant(s)
    ensures RequestInvariant(Replied(s, broken))
  {
  }

  lemma DiedKeeps(s: System)
    requires PipeInvariant(s)
    ensures PipeInvariant(Died(s))
  {
  }

  lemma TimePasses(s: System)
    requires PipeInvariant(s)
    ensures PipeInvariant(s.(time := s.time + 1))
  {
  }

  lemma MovedKeeps(s: System, step: Step)
    requires PipeInvariant(s)
    ensures PipeInvariant(Moved(s, step))
  {
    match step
    case Acquire(caller, line) => AcquireKeeps(s, caller, line);
    case Check => CheckKeeps(s);
    case Put => PutKeeps(s);
    case Collect => CollectKeeps(s);
    case TimeOut => TimeOutKeeps(s);
    case Close => CloseKeeps(s);
    case TakeJob => TakeJobKeeps(s);
    case Write(works) => WriteKeeps(s, works);
    case Read =>
      ReadKeepsWire(s);
      ReadKeeps(s);
    case ReadFails => ReadFailsKeeps(s);
    case ServeLine(outcome, fits) =>
      ServeKeepsWire(s, outcome, fits);
      ServeKeepsInHand(s, outcome, fits);
      ServeKeepsSettled(s, outcome, fits);
    case SendReply(broken) =>
      ReplyKeepsWire(s, broken);
      ReplyKeeps(s, broken);
    case ChildDies => DiedKeeps(s);
  }

  lemma NextKeeps(s: System, step: Step)
    requires PipeInvariant(s)
    ensures PipeInvariant(Next(s, step))
  {
    MovedKeeps(s, step);
    TimePasses(Moved(s, step));
  }

  lemma {:induction false} RunKeeps(s: System, steps: seq<Step>)
    requires PipeInvariant(s)
    ensures PipeInvariant(Run(s, steps))
    decreases |steps|
  {
    if steps != [] {
      NextKeeps(s, steps[0]);
      RunKeeps(Next(s, steps[0]), steps[1..]);
    }
  }

  // ---------------------------------------------------------------------------------------------
  // What callers can rely on, whatever the interleaving.

  /** Every result handed out is that of the caller's own line, dispatched once; no two requests share
      a dispatch, and lines reach the child in the order they were queued. */
  lemma RepliesArePaired(steps: seq<Step>)
    ensures var s := Run(Begin(), steps);
      && LinesInOrder(s.queued, s.served, s.stdin)
      && forall i | 0 <= i < |s.endings| ::
           && s.endings[i].number == i
           && (s.endings[i].result.Got? ==>
                 && i < |s.served|
                 && s.served[i].line == s.endings[i].line
                 && s.endings[i].result.outcome == Deserved(s.served[i]))
  {
    RunKeeps(Begin(), steps);
  }

  /** Only the last request can end without a result, and then `failed` is set. */
  lemma OnlyTheLastRequestFails(steps: seq<Step>, i: nat)
    requires i < |Run(Begin(), steps).endings| && !Run(Begin(), steps).endings[i].result.Got?
    ensures var s := Run(Begin(), steps); s.failed && i == |s.endings| - 1 == |s.queued| - 1
  {
    RunKeeps(Begin(), steps);
  }

  lemma FailureStays(s: System, step: Step)
    requires s.failed && (s.lock.Held? ==> s.lock.progress.Entered?)
    ensures var t := Next(s, step); t.failed && t.queued == s.queued && t.endings == s.endings
  {
  }

  /** From then on nothing is queued, so nothing later is ever written, and a late reply reaches
      nobody. */
  lemma {:induction false} FailureIsFinal(s: System, steps: seq<Step>)
    requires PipeInvariant(s) && s.failed
    ensures var t := Run(s, steps);
      && t.failed && t.queued == s.queued && t.endings == s.endings
      && LinesInOrder(s.queued, t.served, t.stdin)
    decreases |steps|
  {
    if steps != [] {
      NextKeeps(s, steps[0]);
      FailureStays(s, steps[0]);
      FailureIsFinal(Next(s, steps[0]), steps[1..]);
    }
  }

  /** Admitted, by a check that found the pipe neither closed nor failed. */
  predicate LetIn(lock: Lock) {
    lock.Held? && lock.progress.Admitted?
  }

  lemma ClosedStays(s: System, step: Step)
    requires s.closed && !LetIn(s.lock)
    ensures var t := Next(s, step); t.closed && !LetIn(t.lock) && t.queued == s.queued
  {
  }

  /** Once the pipe is closed no request is queued that had not been let in before. */
  lemma {:induction false} ClosedIsFinal(s: System, steps: seq<Step>)
    requires s.closed && !LetIn(s.lock)
    ensures var t := Run(s, steps); t.closed && t.queued == s.queued
    decreases |steps|
  {
    if steps != [] {
      ClosedStays(s, steps[0]);
      ClosedIsFinal(Next(s, steps[0]), steps[1..]);
    }
  }

  /** A caller is let in exactly if the pipe is neither closed nor failed, and leaves at once otherwise. */
  lemma CheckDecides(s: System)
    requires s.lock.Held? && s.lock.progress.Entered?
    ensures LetIn(Next(s, Check).lock) <==> !s.closed && !s.failed
    ensures s.closed || s.failed ==> Next(s, Check) == s.(lock := Free, time := s.time + 1)
  {
  }

  // ---------------------------------------------------------------------------------------------
  // Which of the callers gets which result.

  function LineOf(progress: Progress): string {
    match progress
    case Entered(line) => line
    case Admitted(line) => line
    case Waiting(line, _) => line
  }

  /** The same caller, since the same moment, with the same line. */
  predicate SameHolder(before: Lock, after: Lock) {
    before.Held? && after.Held? && after.at == before.at && after.caller == before.caller
    && LineOf(after.progress) == LineOf(before.progress)
  }

  predicate Takes(s: System, t: System, step: Step) {
    s.lock.Free? && step.Acquire? && t.lock == Held(step.caller, s.time, Entered(step.line))
  }

  predicate Ends(s: System, t: System) {
    && Waits(s.lock) && t.lock.Free? && |t.endings| == |s.endings| + 1 && s.endings == t.endings[..|s.endings|]
    && var e := t.endings[|s.endings|];
       e.at == s.lock.at && e.caller == s.lock.caller && e.line == LineOf(s.lock.progress)
  }

  /** Everything a step can do to the lock, and to the requests queued and ended. */
  ghost predicate LockMoves(s: System, t: System, step: Step) {
    || (t.lock == s.lock && t.askers == s.askers && t.endings == s.endings)
    || (Takes(s, t, step) && t.askers == s.askers && t.endings == s.endings)
    || (s.lock.Held? && !Waits(s.lock) && t.lock.Free? && t.askers == s.askers && t.endings == s.endings)
    || (SameHolder(s.lock, t.lock) && !Waits(s.lock) && !Waits(t.lock) && t.askers == s.askers && t.endings == s.endings)
    || (SameHolder(s.lock, t.lock) && !Waits(s.lock) && Waits(t.lock)
        && t.askers == s.askers + [s.lock.at] && t.endings == s.endings)
    || (Ends(s, t) && t.askers == s.askers)
  }

  lemma MovedMovesTheLock(s: System, step: Step)
    ensures LockMoves(s, Moved(s, step), step)
  {
    match step
    case Collect | TimeOut =>
      var t := Moved(s, step);
      if |t.endings| > |s.endings| {
        assert s.endings == t.endings[..|s.endings|];
      }
    case _ =>
  }

  ghost predicate Rising(askers: seq<nat>, time: nat) {
    && (forall i, j | 0 <= i < j < |askers| :: askers[i] < askers[j])
    && (forall i | 0 <= i < |askers| :: askers[i] < time)
  }

  lemma OneMoreAsker(askers: seq<nat>, at: nat, time: nat)
    requires Rising(askers, time) && at < time && (askers != [] ==> askers[|askers| - 1] < at)
    ensures Rising(askers + [at], time + 1)
  {
    forall i, j | 0 <= i < j < |askers + [at]| ensures (askers + [at])[i] < (askers + [at])[j] {
      if j == |askers| {
        assert i < |askers| - 1 ==> askers[i] < askers[|askers| - 1];
      }
    }
  }

  ghost predicate Matched(endings: seq<Ending>, askers: seq<nat>) {
    |endings| <= |askers| && forall i | 0 <= i < |endings| :: endings[i].at == askers[i]
  }

  lemma OneMoreEnding(before: seq<Ending>, after: seq<Ending>, askers: seq<nat>)
    requires Matched(before, askers) && |after| == |before| + 1 <= |askers| && before == after[..|before|]
    requires after[|before|].at == askers[|before|]
    ensures Matched(after, askers)
  {
    forall i | 0 <= i < |after| ensures after[i].at == askers[i] {
      assert i < |before| ==> after[..|before|][i] == before[i];
    }
  }

  /** Requests are queued, and end, in the order in which their callers took the lock. */
  ghost predicate InLockOrder(lock: Lock, askers: seq<nat>, endings: seq<Ending>, time: nat) {
    && Rising(askers, time)
    && Matched(endings, askers)
    && |endings| == |askers| - (if Waits(lock) then 1 else 0)
    && (lock.Held? ==> lock.at < time)
    && (Waits(lock) ==> lock.at == askers[|askers| - 1])
    && (lock.Held? && !Waits(lock) && askers != [] ==> askers[|askers| - 1] < lock.at)
  }

  lemma LockOrderKept(s: System, t: System, step: Step)
    requires InLockOrder(s.lock, s.askers, s.endings, s.time) && LockMoves(s, t, step)
    ensures InLockOrder(t.lock, t.askers, t.endings, s.time + 1)
  {
    if t.askers != s.askers {
      OneMoreAsker(s.askers, s.lock.at, s.time);
    } else if t.endings != s.endings && Ends(s, t) {
      OneMoreEnding(s.endings, t.endings, s.askers);
    }
  }

  /** The step at this place is the `Acquire` with which the caller took the free lock to send the line. */
  ghost predicate Took(steps: seq<Step>, at: nat, caller: nat, line: string) {
    at < |steps| && steps[at] == Acquire(caller, line) && Run(Begin(), steps[..at]).lock.Free?
  }

  lemma TookStays(steps: seq<Step>, step: Step, at: nat, caller: nat, line: string)
    requires Took(steps, at, caller, line)
    ensures Took(steps + [step], at, caller, line)
  {
    assert (steps + [step])[..at] == steps[..at];
  }

  /** Everyone holding the lock or served took it, then, with that very line. */
  ghost predicate Callers(s: System, steps: seq<Step>) {
    && s.time == |steps|
    && (s.lock.Held? ==> Took(steps, s.lock.at, s.lock.caller, LineOf(s.lock.progress)))
    && (forall e | e in s.endings :: Took(steps, e.at, e.caller, e.line))
  }

  lemma CallersStep(s: System, t: System, before: seq<Step>, step: Step)
    requires s == Run(Begin(), before) && Callers(s, before) && LockMoves(s, t, step) && t.time == s.time + 1
    ensures Callers(t, before + [step])
  {
    forall at, caller, line | Took(before, at, caller, line) ensures Took(before + [step], at, caller, line) {
      TookStays(before, step, at, caller, line);
    }
    if Takes(s, t, step) {
      assert (before + [step])[..|before|] == before;
      assert Took(before + [step], |before|, step.caller, step.line);
    }
    forall e | e in t.endings ensures Took(before + [step], e.at, e.caller, e.line) {
      if e !in s.endings {
        assert Ends(s, t) && e == t.endings[|s.endings|];
      }
    }
  }

  lemma FrontAndLast(steps: seq<Step>)
    requires steps != []
    ensures steps[..|steps| - 1] + [steps[|steps| - 1]] == steps
  {
  }

  lemma RunOneMore(s: System, before: seq<Step>, step: Step)
    ensures Run(s, before + [step]) == Next(Run(s, before), step)
  {
    RunAppends(s, before, [step]);
    RunOne(Run(s, before), step);
  }

  ghost predicate CallersInOrder(s: System, steps: seq<Step>) {
    Callers(s, steps) && InLockOrder(s.lock, s.askers, s.endings, s.time)
  }

  lemma StepKeepsCallers(s: System, before: seq<Step>, step: Step)
    requires s == Run(Begin(), before) && CallersInOrder(s, before)
    ensures CallersInOrder(Next(s, step), before + [step])
  {
    MovedMovesTheLock(s, step);
    CallersStep(s, Next(s, step), before, step);
    LockOrderKept(s, Moved(s, step), step);
  }

  lemma OneMoreKeepsCallers(before: seq<Step>, step: Step)
    requires CallersInOrder(Run(Begin(), before), before)
    ensures CallersInOrder(Run(Begin(), before + [step]), before + [step])
  {
    RunOneMore(Begin(), before, step);
    StepKeepsCallers(Run(Begin(), before), before, step);
  }

  lemma {:induction false} RunKeepsCallers(steps: seq<Step>)
    ensures CallersInOrder(Run(Begin(), steps), steps)
    decreases |steps|
  {
    if steps != [] {
      RunKeepsCallers(steps[..|steps| - 1]);
      OneMoreKeepsCallers(steps[..|steps| - 1], steps[|steps| - 1]);
      FrontAndLast(steps);
    }
  }

  /** Every ending belongs to one taking of the lock: that of its own caller, for its own line.  Different
      endings belong to different ones, even if callers send the same line, and requests end in the order
      in which the lock was taken. */
  lemma ResultsGoToTheirCallers(steps: seq<Step>, i: nat)
    requires i < |Run(Begin(), steps).endings|
    ensures var s := Run(Begin(), steps);
      var e := s.endings[i];
      && e.number == i < |s.askers| == |s.queued| && s.askers[i] == e.at && s.queued[i] == e.line
      && Took(steps, e.at, e.caller, e.line)
      && forall j | 0 <= j < i :: s.endings[j].at < e.at
  {
    RunKeeps(Begin(), steps);
    RunKeepsCallers(steps);
    assert Run(Begin(), steps).endings[i] in Run(Begin(), steps).endings;
  }

  // ---------------------------------------------------------------------------------------------
  // An undisturbed request.

  lemma NothingInThePipe(s: System)
    requires PipeInvariant(s) && s.jobs == [] && s.worker.Ready? && s.child.Listening?
    ensures s.stdin == [] && s.stdout == []
  {
  }

  lemma Queueing(s: System, caller: nat, line: string)
    requires s.lock.Free? && !s.failed && !s.closed && s.jobs == []
    ensures Run(s, [Acquire(caller, line), Check, Put]) ==
      s.(lock := Held(caller, s.time, Waiting(line, |s.queued|)), jobs := [Work(|s.queued|, line)],
         queued := s.queued + [line], askers := s.askers + [s.time], time := s.time + 3)
  {
    RunThree(s, Acquire(caller, line), Check, Put);
  }

  lemma Serving(s: System, number: nat, line: string, outcome: Outcome, fits: bool)
    requires s.jobs == [Work(number, line)] && s.worker.Ready? && s.child.Listening? && s.stdin == []
    requires line != "stop\n" && !outcome.Crashed?
    ensures Run(s, [TakeJob, Write(true), ServeLine(outcome, fits)]) ==
      s.(jobs := [], worker := Reading(number), child := Replying(Reported(outcome, fits)),
         served := s.served + [Service(line, outcome, fits)], time := s.time + 3)
  {
    RunThree(s, TakeJob, Write(true), ServeLine(outcome, fits));
    assert s.jobs[1..] == [];
    assert s.stdin + [line] == [line] && [line][1..] == [];
  }

  lemma Delivering(s: System, caller: nat, at: nat, line: string, number: nat)
    requires s.lock == Held(caller, at, Waiting(line, number)) && !s.failed
    requires s.worker == Reading(number) && s.child.Replying? && s.stdout == []
    ensures Run(s, [SendReply(false), Read, Collect]) ==
      s.(lock := Free, results := s.results[number := Arrived(s.child.response)], worker := Ready, child := Listening,
         read := s.read + 1, endings := s.endings + [Ending(caller, at, line, number, Got(Understood(s.child.response)))],
         time := s.time + 3)
  {
    RunThree(s, SendReply(false), Read, Collect);
    var reply := Proper(s.child.response);
    assert s.stdout + [reply] == [reply] && [reply][1..] == [];
  }

  /** With nothing in the way a request does succeed, and leaves everything ready for the next. */
  lemma UndisturbedRequestSucceeds(s: System, caller: nat, line: string, outcome: Outcome, fits: bool)
    requires PipeInvariant(s)
    requires s.lock.Free? && !s.failed && !s.closed && s.jobs == [] && s.worker.Ready? && s.child.Listening?
    requires line != "stop\n" && !outcome.Crashed?
    ensures Run(s, [Acquire(caller, line), Check, Put] + [TakeJob, Write(true), ServeLine(outcome, fits)]
                   + [SendReply(false), Read, Collect]) ==
        s.(queued := s.queued + [line], askers := s.askers + [s.time], time := s.time + 9,
           served := s.served + [Service(line, outcome, fits)],
           results := s.results[|s.queued| := Arrived(Reported(outcome, fits))], read := s.read + 1,
           endings := s.endings + [Ending(caller, s.time, line, |s.queued|, Got(Deserved(Service(line, outcome, fits))))])
  {
    var asking := [Acquire(caller, line), Check, Put];
    var serving := [TakeJob, Write(true), ServeLine(outcome, fits)];
    RunAppends(s, asking + serving, [SendReply(false), Read, Collect]);
    RunAppends(s, asking, serving);
    NothingInThePipe(s);
    Queueing(s, caller, line);
    Serving(Run(s, asking), |s.queued|, line, outcome, fits);
    Delivering(Run(s, asking + serving), caller, s.time, line, |s.queued|);
  }
}
