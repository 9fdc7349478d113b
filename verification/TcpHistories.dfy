/** The sequences of the TCP host over whole interleavings: each served frame is answered with the item
    that counting the frames of its target gives. */
module TcpHistories {
  import opened Options
  import opened Targets
  import opened Sequences
  import opened Modbus
  import opened TcpService
  import opened TcpTheorems
  import opened TcpInterleaving

  type TcpOp = Op<string, Patch>

  predicate IsServed(r: Request) {
    Rejection(r) == 0 && |r.data| >= 4
  }

  function ControlOps(control: Control): seq<TcpOp> {
    match control
    case SetSequence(target, values) => if ValidSequence(target, values) then [SetOp(target, values.value)] else []
    case Reset(modelFails) => if modelFails then [] else [ResetOp]
    case _ => []
  }

  /** A served frame takes, an accepted configuration sets, a reset resets, and nothing else counts. */
  function EntryOps(s: Server, e: LogEntry): seq<TcpOp> {
    match e
    case FrameRan(_, r) => if IsServed(r) then [TakeOp(Print(PartsOf(r)))] else []
    case ControlRan(control) => if s.failed then [] else ControlOps(control)
  }

  function OpsOfLog(log: seq<LogEntry>): seq<TcpOp> {
    if log == [] then []
    else
      var before := log[..|log| - 1];
      OpsOfLog(before) + EntryOps(Replay(HandleFrame, before), log[|log| - 1])
  }

  lemma FrameTakes(s: Server, id: nat, r: Request)
    requires ServerInvariant(s)
    ensures HandleFrame(s, r).server.sequences == Applied(s.sequences, EntryOps(s, FrameRan(id, r)))
  {
    EveryFrameIsAnswered(s, r);
  }

  lemma ControlApplies(s: Server, control: Control)
    ensures Dispatched(s, control).server.sequences == Applied(s.sequences, EntryOps(s, ControlRan(control)))
  {
  }

  lemma EntryRuns(s: Server, e: LogEntry)
    requires ServerInvariant(s)
    ensures |EntryOps(s, e)| <= 1
    ensures match e
      case FrameRan(_, r) =>
        ServerInvariant(HandleFrame(s, r).server)
        && HandleFrame(s, r).server.sequences == Applied(s.sequences, EntryOps(s, e))
      case ControlRan(control) =>
        ServerInvariant(Dispatched(s, control).server)
        && Dispatched(s, control).server.sequences == Applied(s.sequences, EntryOps(s, e))
  {
    match e
    case FrameRan(id, r) =>
      FrameKeeps(s, r);
      FrameTakes(s, id, r);
    case ControlRan(control) =>
      DispatchedInvariant(s, control);
      ControlApplies(s, control);
  }

  /** For every order in which sections can run, the sequences are the history of the served frames,
      accepted configurations and resets in that order. */
  lemma {:induction false} LogRunsTheSequences(log: seq<LogEntry>)
    ensures ServerInvariant(Replay(HandleFrame, log))
    ensures Replay(HandleFrame, log).sequences == After(OpsOfLog(log))
    decreases |log|
  {
    if log == [] {
      StartInvariant();
    } else {
      var before, e := log[..|log| - 1], log[|log| - 1];
      LogRunsTheSequences(before);
      EntryRuns(Replay(HandleFrame, before), e);
      AppliedIsAfter(OpsOfLog(before), EntryOps(Replay(HandleFrame, before), e));
    }
  }

  /** The fields that counting gives for a target: with n frames of it served since it was last
      configured, item n of that configuration, or no fields past the end. */
  function ItemByCount(ops: seq<TcpOp>, target: string): Fields {
    var n, items := Uses(ops, target), Latest(ops, target);
    if n < |items| && items[n].Object? then items[n].fields else map[]
  }

  lemma ItemIsOverride(s: Server, ops: seq<TcpOp>, target: string)
    requires s.sequences == After(ops)
    ensures Override(s, target) == ItemByCount(ops, target)
  {
    TakeIsItsHistory(ops, target);
  }

  /** In every interleaving a frame that the device serves is answered with the device's own fields,
      replaced where its item by count says so. */
  lemma FrameIsAnsweredFromItsItem(actions: seq<Action>, r: Request)
    requires Rejection(r) == 0
    ensures |r.data| >= 4
    ensures var w := Run(actions);
      var h := HandleFrame(w.server, r);
      h.Answered?
      && Some(h.bytes) ==
           EncodeResponse(r, Response(w.server.holding, r) + ItemByCount(OpsOfLog(w.log), Print(PartsOf(r))))
  {
    var w := Run(actions);
    EveryInterleavingIsSequential(actions);
    LogRunsTheSequences(w.log);
    EveryFrameIsAnswered(w.server, r);
    ItemIsOverride(w.server, OpsOfLog(w.log), Print(PartsOf(r)));
  }

  // ---------------------------------------------------------------------------------------------
  // Exactly once.

  predicate Resetting(e: LogEntry) {
    e.ControlRan? && e.control == Reset(false)
  }

  lemma NoResetOp(s: Server, e: LogEntry)
    requires !Resetting(e)
    ensures ResetOp !in EntryOps(s, e)
  {
    if e.ControlRan? && e.control.Reset? {
      assert e.control == Reset(e.control.modelFails);
    }
  }

  lemma Extends(first: seq<TcpOp>, ops: seq<TcpOp>, more: seq<TcpOp>)
    requires first <= ops
    ensures first <= ops + more && (ops + more)[|first|..] == ops[|first|..] + more
  {
  }

  lemma {:induction false} OpsGrow(log: seq<LogEntry>, i: nat)
    requires i <= |log| && forall k | i <= k < |log| :: !Resetting(log[k])
    ensures OpsOfLog(log[..i]) <= OpsOfLog(log)
    ensures ResetOp !in OpsOfLog(log)[|OpsOfLog(log[..i])|..]
    decreases |log|
  {
    if i == |log| {
      assert log[..i] == log;
    } else {
      var before, e := log[..|log| - 1], log[|log| - 1];
      assert before[..i] == log[..i];
      OpsGrow(before, i);
      NoResetOp(Replay(HandleFrame, before), e);
      Extends(OpsOfLog(log[..i]), OpsOfLog(before), EntryOps(Replay(HandleFrame, before), e));
    }
  }

  lemma OneMoreEntry(log: seq<LogEntry>, i: nat)
    requires i < |log|
    ensures OpsOfLog(log[..i + 1]) == OpsOfLog(log[..i]) + EntryOps(Replay(HandleFrame, log[..i]), log[i])
  {
    assert log[..i + 1][..i] == log[..i];
  }

  lemma SplitAt(ops: seq<TcpOp>, taken: TcpOp, all: seq<TcpOp>)
    requires ops + [taken] <= all
    ensures all == ops + ([taken] + all[|ops| + 1..])
  {
  }

  /** What has happened between a served frame and a later point of the log, seen from its target. */
  lemma HistoryBetween(log: seq<LogEntry>, i: nat, j: nat) returns (more: seq<TcpOp>)
    requires i < j <= |log| && log[i].FrameRan? && IsServed(log[i].request)
    requires forall k | i < k < j :: !Resetting(log[k])
    ensures OpsOfLog(log[..j]) == OpsOfLog(log[..i]) + ([TakeOp(Print(PartsOf(log[i].request)))] + more)
    ensures ResetOp !in more
  {
    var ops, taken := OpsOfLog(log[..i]), TakeOp(Print(PartsOf(log[i].request)));
    OneMoreEntry(log, i);
    assert log[..j][..i + 1] == log[..i + 1];
    OpsGrow(log[..j], i + 1);
    SplitAt(ops, taken, OpsOfLog(log[..j]));
    more := OpsOfLog(log[..j])[|ops| + 1..];
  }

  /** The item, if any, that a frame of the target running at position `i` of a log is answered with. */
  function ItemAt(log: seq<LogEntry>, i: nat, target: string): Selection<string, Patch>
    requires i <= |log|
  {
    Selected(Replay(HandleFrame, log[..i]).sequences, target)
  }

  /** In every order in which sections can run, no configured item answers two frames and items answer in
      order: of two served frames of a target with no reset between them, whichever connections they
      came over, the later one is answered from a later configuration or a later place in the same. */
  lemma EachItemAnswersOneFrame(log: seq<LogEntry>, i: nat, j: nat)
    requires i < j < |log| && log[i].FrameRan? && log[j].FrameRan?
    requires IsServed(log[i].request) && IsServed(log[j].request)
    requires PartsOf(log[i].request) == PartsOf(log[j].request)
    requires forall k | i < k < j :: !Resetting(log[k])
    ensures var target := Print(PartsOf(log[i].request));
      var first, second := ItemAt(log, i, target), ItemAt(log, j, target);
      && first.call < second.call
      && (first.Overridden() && second.Overridden() ==>
            first.generation < second.generation
            || (first.generation == second.generation && first.index.value < second.index.value))
  {
    var target := Print(PartsOf(log[i].request));
    var more := HistoryBetween(log, i, j);
    LogRunsTheSequences(log[..i]);
    LogRunsTheSequences(log[..j]);
    TwoTakes(OpsOfLog(log[..i]), more, target);
  }
}
