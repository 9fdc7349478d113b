/** What peers of the TCP host get: from any host when nothing is injected, and from one that has just
    started or been reset. */
module TcpAnswers {
  import opened Options
  import opened Bytes
  import opened Targets
  import opened Sequences
  import opened Modbus
  import opened ModbusAnswers
  import opened Framing
  import opened TcpService
  import opened TcpTheorems
  import opened TcpInterleaving

  // ---------------------------------------------------------------------------------------------
  // The bytes of an answer when nothing is injected.

  /** Nothing is left to override the answers to a target. */
  predicate Untouched(s: Server, target: string) {
    Selected(s.sequences, target).value.None?
  }

  lemma NothingInjected(s: Server, r: Request)
    requires ServerInvariant(s) && Rejection(r) == 0
    requires |r.data| >= 4 ==> Untouched(s, Print(PartsOf(r)))
    ensures |r.data| >= 4 && EncodeResponse(r, Response(s.holding, r)).Some?
    ensures var after := s.(holding := Written(s.holding, r), sequences := Consumed(s.sequences, Print(PartsOf(r))));
      HandleFrame(s, r) == Answered(after, EncodeResponse(r, Response(s.holding, r)).value)
  {
    EveryFrameIsAnswered(s, r);
    assert Response(s.holding, r) + map[] == Response(s.holding, r);
  }

  /** A served read without injection carries the registers at its places. */
  lemma ReadIsAnswered(s: Server, id: word, unit: byte, code: byte, address: word, quantity: word)
    requires ServerInvariant(s) && code in {3, 4} && 1 <= quantity && address + quantity <= (if code == 3 then 2 else 3)
    requires Untouched(s, Print(Parts(code, address, quantity)))
    ensures var pdu := [code, 2 * quantity] + WordsBytes(Shown(s.holding, code, address, quantity));
      var after := s.(sequences := Consumed(s.sequences, Print(Parts(code, address, quantity))));
      HandleFrame(s, ReadOf(id, unit, code, address, quantity)) == Answered(after, Enclose(id, unit, pdu))
  {
    var r := ReadOf(id, unit, code, address, quantity);
    PartsOfRead(id, unit, code, address, quantity);
    ReadIsRefused(id, unit, code, address, quantity);
    ReadAnswers(s.holding, id, unit, code, address, quantity);
    NothingInjected(s, r);
    AnswersAreWritten(r, Shown(s.holding, code, address, quantity), 1);
  }

  // ---------------------------------------------------------------------------------------------
  // What may be injected.

  /** A value for a field of the response to a target. */
  predicate GoodField(p: Parts, name: FieldName, value: Json) {
    match name
    case Exception => value in {Number(0), Number(1), Number(2), Number(3), Number(4)}
    case RegisterValues =>
      && p.code in {3, 4} && value.List? && |value.items| == p.quantity
      && forall i | 0 <= i < |value.items| :: value.items[i].Number? && 0 <= value.items[i].n <= 65535
    case OtherField(_) => false
  }

  /** An item names fields of the response, some or none, and gives each a value it can have. */
  predicate GoodItem(p: Parts, item: Patch) {
    item.Object? && forall name | name in item.fields :: GoodField(p, name, item.fields[name])
  }

  lemma GoodFieldsFit(p: Parts, fields: Fields, merged: Fields)
    requires Supported(p) && fields.Keys <= Baseline(p).Keys && merged == Baseline(p) + fields
    ensures FitsParts(p, merged) <==> forall name | name in fields :: GoodField(p, name, fields[name])
  {
    assert merged.Keys == Baseline(p).Keys;
  }

  lemma ItemsAreChecked(target: string, p: Parts, item: Patch)
    requires TargetParts(target) == Some(p)
    ensures ValidPatch(target, item) <==> GoodItem(p, item)
  {
    TargetRoundTrip(target, p);
    if item.Object? {
      if item.fields.Keys <= Baseline(p).Keys {
        GoodFieldsFit(p, item.fields, Baseline(p) + item.fields);
      } else {
        var name :| name in item.fields && name !in Baseline(p);
        assert !GoodField(p, name, item.fields[name]);
      }
    }
  }

  predicate GoodItems(p: Parts, items: Option<seq<Patch>>) {
    items.Some? && |items.value| <= 10000 && forall i | 0 <= i < |items.value| :: GoodItem(p, items.value[i])
  }

  lemma AllItemsAreChecked(target: string, p: Parts, items: Option<seq<Patch>>)
    requires TargetParts(target) == Some(p)
    ensures ValidSequence(target, items) <==> GoodItems(p, items)
  {
    forall item: Patch ensures ValidPatch(target, item) <==> GoodItem(p, item) {
      ItemsAreChecked(target, p, item);
    }
  }

  lemma RefusedIfInvalid(s: Server, target: string, items: Option<seq<Patch>>)
    requires !s.failed
    ensures Dispatched(s, SetSequence(target, items)).answer == Refused <==> !ValidSequence(target, items)
    ensures Dispatched(s, SetSequence(target, items)).answer == Refused ==>
      Dispatched(s, SetSequence(target, items)).server == s
  {
  }

  lemma ValidAreGood(target: string, items: Option<seq<Patch>>)
    ensures ValidSequence(target, items) <==> exists p :: p in TARGETS && target == Text(p) && GoodItems(p, items)
  {
    if TargetParts(target).Some? {
      AllItemsAreChecked(target, TargetParts(target).value, items);
      AcceptedTexts(target, TargetParts(target).value);
    }
    if p :| p in TARGETS && target == Text(p) && GoodItems(p, items) {
      AcceptedTexts(target, p);
    }
  }

  /** A sequence is accepted exactly for one of the fourteen targets, with a list of at most 10000 good items. */
  lemma SequencesAreChecked(s: Server, target: string, items: Option<seq<Patch>>)
    requires !s.failed
    ensures Dispatched(s, SetSequence(target, items)).answer != Refused <==>
      exists p :: p in TARGETS && target == Text(p) && GoodItems(p, items)
    ensures Dispatched(s, SetSequence(target, items)).answer == Refused ==>
      Dispatched(s, SetSequence(target, items)).server == s
  {
    RefusedIfInvalid(s, target, items);
    ValidAreGood(target, items);
  }

  // ---------------------------------------------------------------------------------------------
  // Start and reset.

  lemma FirstTwo(holding: Registers)
    ensures Shown(holding, 3, 0, 2) == holding
  {
    ShownAt(holding, 3, 0, 2, 0);
    ShownAt(holding, 3, 0, 2, 1);
  }

  lemma RegisterBytes(a: word, b: word)
    ensures WordsBytes([a, b]) == [High(a), Low(a), High(b), Low(b)]
  {
    assert [a, b][1..] == [b];
    assert WordsBytes([b]) == [High(b), Low(b)];
  }

  lemma StartIsShown(id: word, unit: byte)
    ensures var h := HandleFrame(StartServer(), ReadOf(id, unit, 3, 0, 2));
      h.Answered? && h.bytes == Enclose(id, unit, [3, 4] + WordsBytes(StartServer().holding))
  {
    StartInvariant();
    ReadIsAnswered(StartServer(), id, unit, 3, 0, 2);
    FirstTwo(StartServer().holding);
  }

  lemma StartBytes(id: word, unit: byte)
    ensures Enclose(id, unit, [3, 4] + WordsBytes([1, 100])) ==
      [id / 256, id % 256, 0, 0, 0, 7, unit, 3, 4, 0, 1, 0, 100]
  {
    RegisterBytes(1, 100);
    assert [3, 4] + WordsBytes([1, 100]) == [3, 4, 0, 1, 0, 100];
    HeaderIsWritten(id, unit, [3, 4, 0, 1, 0, 100]);
  }

  /** A host that has just started answers a read of both holding registers with 1 and 100. */
  lemma StartIsAnswered(id: word, unit: byte)
    ensures var h := HandleFrame(StartServer(), ReadOf(id, unit, 3, 0, 2));
      h.Answered? && h.bytes == [id / 256, id % 256, 0, 0, 0, 7, unit, 3, 4, 0, 1, 0, 100]
  {
    StartIsShown(id, unit);
    StartBytes(id, unit);
    assert StartServer().holding == [1, 100];
  }

  /** A reset leaves what a start leaves, but for the generation. */
  lemma ResetIsAFreshStart(s: Server)
    requires !s.failed
    ensures Dispatched(s, Reset(false)) == Controlled(StartServer().(generation := s.generation + 1), Done)
  {
  }

  /** Hosts that differ in nothing but the number of resets. */
  predicate Alike(s: Server, t: Server) {
    s.holding == t.holding && s.sequences == t.sequences && s.failed == t.failed
  }

  /** Control requests whose answers show, and effects use, nothing of the generation. */
  lemma ControlIgnoresTheGeneration(s: Server, t: Server, c: Control)
    requires Alike(s, t)
    ensures Alike(Dispatched(s, c).server, Dispatched(t, c).server)
    ensures Dispatched(s, c).answer == Dispatched(t, c).answer
  {
  }

  /** The same answer, or none, from hosts that are alike afterwards. */
  predicate AlikeHandled(a: Handled<Server>, b: Handled<Server>) {
    Alike(a.server, b.server) && (a.Answered? <==> b.Answered?) && (a.Answered? ==> a.bytes == b.bytes)
  }

  lemma EncodingIgnoresTheGeneration(s: Server, t: Server, r: Request, fields: Fields)
    requires Alike(s, t)
    ensures AlikeHandled(Encoded(s, r, fields), Encoded(t, r, fields))
  {
  }

  lemma OverrideIgnoresTheGeneration(s: Server, t: Server, r: Request, normal: Fields, target: string)
    requires Alike(s, t)
    ensures AlikeHandled(Overridden(s, r, normal, target), Overridden(t, r, normal, target))
  {
    var selection := Selected(s.sequences, target);
    var fields := Patched(target, if selection.value.Some? then selection.value.value else NO_PATCH, normal);
    if fields.Some? {
      EncodingIgnoresTheGeneration(s.(sequences := Consumed(s.sequences, target)),
                                   t.(sequences := Consumed(t.sequences, target)), r, fields.value);
    }
  }

  lemma FrameIgnoresTheGeneration(s: Server, t: Server, r: Request)
    requires Alike(s, t)
    ensures AlikeHandled(HandleFrame(s, r), HandleFrame(t, r))
  {
    var normal := Response(s.holding, r);
    var a, b := s.(holding := Written(s.holding, r)), t.(holding := Written(t.holding, r));
    EncodingIgnoresTheGeneration(a, b, r, normal);
    if (ExceptionOf(normal) == Number(0) ==> |r.data| >= 4) && SequenceTarget(r, normal).Some? {
      OverrideIgnoresTheGeneration(a, b, r, normal, SequenceTarget(r, normal).value);
    }
  }

  lemma SectionIgnoresTheGeneration(s: Server, t: Server, r: Request)
    requires Alike(s, t)
    ensures var a, b := Section(s.generation)(s, r), Section(t.generation)(t, r);
      && AlikeHandled(a, b)
      && a.server.generation == s.generation && b.server.generation == t.generation
  {
    FrameIgnoresTheGeneration(s, t, r);
    HostKeepsGeneration(s, r);
    HostKeepsGeneration(t, r);
  }

  lemma {:induction false} ServesAlike(s: Server, t: Server, x: Served<Server>, y: Served<Server>, requests: seq<Request>)
    requires x.server == s && y.server == t && Alike(s, t)
    requires x.handled == y.handled && x.sent == y.sent && x.ended == y.ended
    ensures var a, b := Serve(Section(s.generation), x, requests), Serve(Section(t.generation), y, requests);
      && Alike(a.server, b.server) && a.handled == b.handled && a.sent == b.sent && a.ended == b.ended
    decreases |requests|
  {
    if requests != [] && !x.ended {
      var r := requests[0];
      var a, b := Section(s.generation)(s, r), Section(t.generation)(t, r);
      SectionIgnoresTheGeneration(s, t, r);
      if a.Answered? {
        ServesAlike(a.server, b.server, Served(a.server, x.handled + [r], x.sent + a.bytes, false),
                    Served(b.server, y.handled + [r], y.sent + b.bytes, false), requests[1..]);
      }
    }
  }

  /** After a reset every connection is served, byte for byte, as a host that has just started serves it. */
  lemma ServedAsFromStart(s: Server, requests: seq<Request>)
    requires !s.failed
    ensures var reset := Dispatched(s, Reset(false)).server;
      var a := Serve(Section(reset.generation), Served(reset, [], [], false), requests);
      var b := Serve(Section(0), Served(StartServer(), [], [], false), requests);
      a.sent == b.sent && a.handled == b.handled && a.ended == b.ended && Alike(a.server, b.server)
  {
    var reset := Dispatched(s, Reset(false)).server;
    ResetIsAFreshStart(s);
    ServesAlike(reset, StartServer(), Served(reset, [], [], false), Served(StartServer(), [], [], false), requests);
  }

  lemma EntryIgnoresTheGeneration(s: Server, t: Server, e: LogEntry)
    requires Alike(s, t)
    ensures match e
      case FrameRan(_, r) => Alike(HandleFrame(s, r).server, HandleFrame(t, r).server)
      case ControlRan(control) => Alike(Dispatched(s, control).server, Dispatched(t, control).server)
  {
    match e
    case FrameRan(_, r) => FrameIgnoresTheGeneration(s, t, r);
    case ControlRan(control) => ControlIgnoresTheGeneration(s, t, control);
  }

  lemma OneMoreEntry(longer: seq<LogEntry>, shorter: seq<LogEntry>)
    requires longer != [] && shorter != [] && longer[|longer| - 1] == shorter[|shorter| - 1]
    requires Alike(Replay(HandleFrame, longer[..|longer| - 1]), Replay(HandleFrame, shorter[..|shorter| - 1]))
    ensures Alike(Replay(HandleFrame, longer), Replay(HandleFrame, shorter))
  {
    EntryIgnoresTheGeneration(Replay(HandleFrame, longer[..|longer| - 1]), Replay(HandleFrame, shorter[..|shorter| - 1]),
                              longer[|longer| - 1]);
  }

  lemma CutBefore(log: seq<LogEntry>, i: nat)
    requires i < |log| - 1
    ensures log[..|log| - 1][..i] == log[..i] && log[..|log| - 1][i] == log[i]
    ensures log[..|log| - 1][i + 1..] == log[i + 1..][..|log[i + 1..]| - 1]
    ensures log[i + 1..] != [] && log[i + 1..][|log[i + 1..]| - 1] == log[|log| - 1]
  {
  }

  /** In every order in which sections can run, a successful reset cuts what was before it off: registers
      and sequences are those that the sections after it give a host that has just started. */
  lemma {:induction false} OnlyTheLogSinceResetCounts(log: seq<LogEntry>, i: nat)
    requires i < |log| && log[i] == ControlRan(Reset(false)) && !Replay(HandleFrame, log[..i]).failed
    ensures Alike(Replay(HandleFrame, log), Replay(HandleFrame, log[i + 1..]))
    decreases |log|
  {
    if i == |log| - 1 {
      ResetIsAFreshStart(Replay(HandleFrame, log[..i]));
    } else {
      CutBefore(log, i);
      OnlyTheLogSinceResetCounts(log[..|log| - 1], i);
      OneMoreEntry(log, log[i + 1..]);
    }
  }

  // ---------------------------------------------------------------------------------------------
  // Failure.

  /** A reset in which the device raises fails the host, and takes no effect but that. */
  lemma FailedResetFails(s: Server)
    requires !s.failed
    ensures Dispatched(s, Reset(true)) == Controlled(s.(generation := s.generation + 1, failed := true), Unusable)
  {
  }

  /** A failed host serves no frame, answers `ping` and `diagnostics` only, and never changes. */
  lemma FailureIsFinal(s: Server, generation: nat, r: Request, c: Control)
    requires s.failed
    ensures Section(generation)(s, r) == Ended(s)
    ensures Dispatched(s, c).server == s
    ensures !c.Ping? && !c.Diagnostics? ==> Dispatched(s, c).answer == Unusable
  {
  }

  lemma NamesATarget(text: string)
    ensures TargetParts(text).Some? <==> exists p :: p in TARGETS && text == Text(p)
  {
    if TargetParts(text).Some? {
      AcceptedTexts(text, TargetParts(text).value);
    }
    if p :| p in TARGETS && text == Text(p) {
      AcceptedTexts(text, p);
    }
  }

  /** A query of sequences is refused exactly if it asks for a text that names no target. */
  lemma QueriesAreChecked(s: Server, queried: Option<string>)
    requires !s.failed
    ensures Dispatched(s, GetSequences(queried)).server == s
    ensures Dispatched(s, GetSequences(queried)).answer == Refused
            <==> queried.Some? && !exists p :: p in TARGETS && queried.value == Text(p)
  {
    if queried.Some? {
      NamesATarget(queried.value);
    }
  }
}
