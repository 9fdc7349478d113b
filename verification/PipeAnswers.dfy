/** How requests over the pipe end, and how the worker and the child do. */
module PipeAnswers {
  import opened Pipe

  /** A new pipe serves its first request, if nothing gets in the way. */
  lemma FirstRequestSucceeds(caller: nat, line: string, outcome: Outcome, fits: bool)
    requires line != "stop\n" && !outcome.Crashed?
    ensures var s := Run(Begin(), [Acquire(caller, line), Check, Put] + [TakeJob, Write(true), ServeLine(outcome, fits)]
                                  + [SendReply(false), Read, Collect]);
      && s.endings == [Ending(caller, 0, line, 0, Got(if fits then outcome else Unavailable(TOO_LARGE)))]
      && s.lock.Free? && !s.failed && !s.closed
  {
    UndisturbedRequestSucceeds(Begin(), caller, line, outcome, fits);
  }

  // ---------------------------------------------------------------------------------------------
  // Waiting callers.

  /** The waiting caller leaves with this result; without one the pipe has failed. */
  predicate LeavesWith(s: System, t: System, result: Result)
    requires Waits(s.lock)
  {
    && t.lock.Free? && (t.failed <==> s.failed || !result.Got?)
    && t.endings == s.endings + [Ending(s.lock.caller, s.lock.at, s.lock.progress.line, s.lock.progress.number, result)]
  }

  /** A caller that has something to collect collects it and does not time out; a caller that has not can
      only time out. */
  lemma WaitingEnds(s: System)
    requires Waits(s.lock)
    ensures var number := s.lock.progress.number;
      && (number in s.results ==> Next(s, TimeOut) == s.(time := s.time + 1))
      && (number in s.results && s.results[number].Arrived? ==>
            LeavesWith(s, Next(s, Collect), Got(Understood(s.results[number].response))))
      && (number in s.results && s.results[number].Failure? ==> LeavesWith(s, Next(s, Collect), Broke))
      && (number !in s.results ==> Next(s, Collect) == s.(time := s.time + 1) && LeavesWith(s, Next(s, TimeOut), TimedOut))
  {
  }

  /** A write or a read that fails, or a reply that is none. */
  predicate Breaks(s: System, step: Step) {
    || (s.worker.Writing? && step == Write(false))
    || (s.worker.Reading? && (step.ReadFails? || (step.Read? && s.stdout != [] && s.stdout[0].Garbage?)))
  }

  /** The worker that meets with one is gone for good, and the caller still waiting is told. */
  lemma BreakingIsTold(s: System, step: Step)
    requires PipeInvariant(s) && Breaks(s, step)
    ensures Next(s, step).worker.Exited?
    ensures Waits(s.lock) ==> LeavesWith(s, Next(Next(s, step), Collect), Broke)
  {
  }

  /** Nobody is told anything any more. */
  lemma ExitedStays(s: System, step: Step)
    requires s.worker.Exited?
    ensures Next(s, step).worker == Exited && Next(s, step).results == s.results && Next(s, step).read == s.read
  {
  }

  // ---------------------------------------------------------------------------------------------
  // Closing.

  function Quits(jobs: seq<Job>): nat {
    if jobs == [] then 0 else (if jobs[0].Quit? then 1 else 0) + Quits(jobs[1..])
  }

  lemma {:induction false} QuitsAppend(jobs: seq<Job>, job: Job)
    ensures Quits(jobs + [job]) == Quits(jobs) + if job.Quit? then 1 else 0
  {
    if jobs == [] {
      assert jobs + [job] == [job];
    } else {
      assert (jobs + [job])[1..] == jobs[1..] + [job];
      QuitsAppend(jobs[1..], job);
    }
  }

  /** An open pipe has no order to quit; a closed one has exactly one until the worker is gone. */
  ghost predicate QuitsOnce(closed: bool, jobs: seq<Job>, worker: Worker) {
    Quits(jobs) <= (if closed then 1 else 0) && (closed && !worker.Exited? ==> Quits(jobs) == 1)
  }

  lemma NextQuitsOnce(s: System, step: Step)
    requires QuitsOnce(s.closed, s.jobs, s.worker)
    ensures var t := Next(s, step); QuitsOnce(t.closed, t.jobs, t.worker)
  {
    if step.Put? && LetIn(s.lock) {
      QuitsAppend(s.jobs, Work(|s.queued|, s.lock.progress.line));
    } else if step.Close? {
      QuitsAppend(s.jobs, Quit);
    }
  }

  lemma {:induction false} RunQuitsOnce(s: System, steps: seq<Step>)
    requires QuitsOnce(s.closed, s.jobs, s.worker)
    ensures var t := Run(s, steps); QuitsOnce(t.closed, t.jobs, t.worker)
    decreases |steps|
  {
    if steps != [] {
      NextQuitsOnce(s, steps[0]);
      RunQuitsOnce(Next(s, steps[0]), steps[1..]);
    }
  }

  /** Closing closes, once and for all, and touches nothing under way. */
  lemma CloseCloses(s: System)
    ensures var t := Next(s, Close);
      && t.closed && t.lock == s.lock && t.worker == s.worker && t.results == s.results && t.endings == s.endings
      && t.jobs == s.jobs + (if s.closed then [] else [Quit])
  {
  }

  lemma QuitIsThere(jobs: seq<Job>)
    requires Quits(jobs) == 1
    ensures Quit in jobs
  {
  }

  lemma NoQuit(jobs: seq<Job>)
    requires Quits(jobs) == 0
    ensures Quit !in jobs
  {
  }

  /** In every run, a closed pipe whose worker is not gone yet has the order to quit in its queue, so the
      worker never waits for jobs in vain; taking the order ends it. */
  lemma ClosedWorkerQuits(steps: seq<Step>)
    ensures var s := Run(Begin(), steps);
      && (s.closed && !s.worker.Exited? ==> Quit in s.jobs)
      && (s.worker.Ready? && s.jobs != [] && s.jobs[0].Quit? ==>
            Next(s, TakeJob) == s.(jobs := s.jobs[1..], worker := Exited, time := s.time + 1))
      && (!s.closed ==> Quit !in s.jobs)
  {
    RunQuitsOnce(Begin(), steps);
    var s := Run(Begin(), steps);
    if s.closed && !s.worker.Exited? {
      QuitIsThere(s.jobs);
    }
    if !s.closed {
      NoQuit(s.jobs);
    }
  }

  // ---------------------------------------------------------------------------------------------
  // The child.

  /** A child that reads "stop", meets with an error it does not report, or dies, is gone. */
  lemma ChildEnds(s: System, outcome: Outcome, fits: bool)
    ensures Next(s, ChildDies) == s.(child := Gone, time := s.time + 1)
    ensures s.child.Listening? && s.stdin != [] && (s.stdin[0] == "stop\n" || outcome.Crashed?) ==>
      Next(s, ServeLine(outcome, fits)) == s.(child := Gone, time := s.time + 1)
  {
  }

  lemma GoneStays(s: System, step: Step)
    requires s.child.Gone?
    ensures Next(s, step).child == Gone && Next(s, step).served == s.served && |Next(s, step).stdout| <= |s.stdout|
  {
    match step
    case Collect | TimeOut =>
    case Read | ReadFails =>
    case _ =>
  }

  /** And says nothing more, whatever is still written to it. */
  lemma {:induction false} GoneIsSilent(s: System, steps: seq<Step>)
    requires s.child.Gone?
    ensures Run(s, steps).child == Gone && Run(s, steps).served == s.served && |Run(s, steps).stdout| <= |s.stdout|
    decreases |steps|
  {
    if steps != [] {
      GoneStays(s, steps[0]);
      GoneIsSilent(Next(s, steps[0]), steps[1..]);
    }
  }
}
