/** The child's loop: one line in, one dispatch, one line out, until the input ends, "stop" is read or an
    error escapes. */
module PipeServer {
  import opened Pipe

  /** A service takes a line to its next state and an outcome; an undecodable line is `Crashed`.  `fits`
      says whether the reply for an outcome is small enough to send. */
  type Dispatch<!S> = (S, string) -> (S, Outcome)

  /** The state the service is left in and the replies, as if each line were handled on its own. */
  function Answers<S>(dispatch: Dispatch<S>, fits: Outcome -> bool, service: S, lines: seq<string>): (S, seq<Response>)
    decreases |lines|
  {
    if lines == [] || lines[0] == "stop\n" then (service, [])
    else
      var (after, outcome) := dispatch(service, lines[0]);
      if outcome.Crashed? then (after, [])
      else
        var rest := Answers(dispatch, fits, after, lines[1..]);
        (rest.0, [Reported(outcome, fits(outcome))] + rest.1)
  }

  lemma NextAnswer<S>(dispatch: Dispatch<S>, fits: Outcome -> bool, service: S, lines: seq<string>, i: nat,
                      already: seq<Response>)
    requires i < |lines| && lines[i] != "stop\n"
    ensures var (next, outcome) := dispatch(service, lines[i]);
      var here := Answers(dispatch, fits, service, lines[i..]);
      if outcome.Crashed? then here == (next, [])
      else
        var rest := Answers(dispatch, fits, next, lines[i + 1..]);
        here.0 == rest.0 && already + here.1 == already + [Reported(outcome, fits(outcome))] + rest.1
  {
    assert lines[i..][1..] == lines[i + 1..];
  }

  method ServeRequests<S>(dispatch: Dispatch<S>, fits: Outcome -> bool, service: S, incoming: seq<string>)
    returns (after: S, outgoing: seq<Response>)
    ensures after == Answers(dispatch, fits, service, incoming).0
    ensures outgoing == Answers(dispatch, fits, service, incoming).1
  {
    after, outgoing := service, [];
    ghost var all := Answers(dispatch, fits, service, incoming);
    var i := 0;
    assert incoming[0..] == incoming;
    while i < |incoming| && incoming[i] != "stop\n"
      invariant 0 <= i <= |incoming|
      invariant all.0 == Answers(dispatch, fits, after, incoming[i..]).0
      invariant all.1 == outgoing + Answers(dispatch, fits, after, incoming[i..]).1
    {
      var (next, outcome) := dispatch(after, incoming[i]);
      NextAnswer(dispatch, fits, after, incoming, i, outgoing);
      after := next;
      if outcome.Crashed? {
        return;
      }
      outgoing := outgoing + [Reported(outcome, fits(outcome))];
      i := i + 1;
    }
  }

  /** The steps of the pipe that the loop stands for. */
  function ChildSteps<S>(dispatch: Dispatch<S>, fits: Outcome -> bool, service: S, lines: seq<string>): seq<Step>
    decreases |lines|
  {
    if lines == [] then []
    else
      var (after, outcome) := dispatch(service, lines[0]);
      var serve := ServeLine(outcome, fits(outcome));
      if lines[0] == "stop\n" || outcome.Crashed? then [serve]
      else [serve, SendReply(false)] + ChildSteps(dispatch, fits, after, lines[1..])
  }

  function Sent(responses: seq<Response>): seq<Reply> {
    if responses == [] then [] else [Proper(responses[0])] + Sent(responses[1..])
  }

  lemma OneExchange(s: System, outcome: Outcome, fits: bool)
    requires s.child.Listening? && s.stdin != [] && s.stdin[0] != "stop\n" && !outcome.Crashed?
    ensures Next(Next(s, ServeLine(outcome, fits)), SendReply(false)) ==
      s.(stdin := s.stdin[1..], stdout := s.stdout + [Proper(Reported(outcome, fits))],
         served := s.served + [Service(s.stdin[0], outcome, fits)], time := s.time + 2)
  {
  }

  lemma SentOneMore(stdout: seq<Reply>, first: Response, rest: seq<Response>)
    ensures stdout + [Proper(first)] + Sent(rest) == stdout + Sent([first] + rest)
  {
    assert ([first] + rest)[1..] == rest;
  }

  /** A run of the child: its output, one reply for each line read, and nothing outside the child. */
  predicate Serves(s: System, t: System, replies: seq<Response>) {
    && t.stdout == s.stdout + Sent(replies) && |t.served| == |s.served| + |replies|
    && t.lock == s.lock && t.results == s.results && t.jobs == s.jobs && t.queued == s.queued
  }

  lemma ServesNothing(s: System, serve: Step)
    requires serve.ServeLine? && s.child.Listening? && s.stdin != [] && (s.stdin[0] == "stop\n" || serve.outcome.Crashed?)
    ensures Serves(s, Run(s, [serve]), [])
  {
    RunOne(s, serve);
    assert s.stdout + [] == s.stdout;
  }

  lemma ServesOneMore(s: System, t: System, outcome: Outcome, fits: bool, rest: seq<Response>)
    requires s.child.Listening? && s.stdin != [] && s.stdin[0] != "stop\n" && !outcome.Crashed?
    requires Serves(Next(Next(s, ServeLine(outcome, fits)), SendReply(false)), t, rest)
    ensures Serves(s, t, [Reported(outcome, fits)] + rest)
  {
    OneExchange(s, outcome, fits);
    SentOneMore(s.stdout, Reported(outcome, fits), rest);
  }

  lemma TwoAndMore(s: System, a: Step, b: Step, more: seq<Step>)
    ensures Run(s, [a, b] + more) == Run(Next(Next(s, a), b), more)
  {
    RunAppends(s, [a, b], more);
    RunTwo(s, a, b);
  }

  /** A child left to itself puts exactly the loop's replies on its output, one for each line read. */
  lemma {:induction false} ChildRunsTheLoop<S>(dispatch: Dispatch<S>, fits: Outcome -> bool, service: S, s: System)
    requires s.child.Listening?
    ensures Serves(s, Run(s, ChildSteps(dispatch, fits, service, s.stdin)), Answers(dispatch, fits, service, s.stdin).1)
    decreases |s.stdin|
  {
    if s.stdin == [] {
      assert s.stdout + [] == s.stdout;
    } else {
      var (after, outcome) := dispatch(service, s.stdin[0]);
      var serve := ServeLine(outcome, fits(outcome));
      if s.stdin[0] == "stop\n" || outcome.Crashed? {
        ServesNothing(s, serve);
      } else {
        var next := Next(Next(s, serve), SendReply(false));
        var more := ChildSteps(dispatch, fits, after, s.stdin[1..]);
        OneExchange(s, outcome, fits(outcome));
        ChildRunsTheLoop(dispatch, fits, after, next);
        TwoAndMore(s, serve, SendReply(false), more);
        ServesOneMore(s, Run(next, more), outcome, fits(outcome), Answers(dispatch, fits, after, s.stdin[1..]).1);
      }
    }
  }
}
