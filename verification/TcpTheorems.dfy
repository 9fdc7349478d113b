/** What the TCP host keeps and promises: every frame is answered, however its bytes arrive. */
module TcpTheorems {
  import opened Options
  import opened Bytes
  import opened Targets
  import opened Sequences
  import opened Modbus
  import opened Framing
  import opened TcpService

  // ---------------------------------------------------------------------------------------------
  // Every frame is answered.

  ghost predicate ItemsFit(target: string, values: seq<Patch>) {
    values != [] ==>
      && TargetParts(target).Some?
      && forall i | 0 <= i < |values| :: ValidPatch(target, values[i])
  }

  /** Every configured item still fits its target. */
  ghost predicate ServerInvariant(s: Server) {
    && GoodRegisters(s.holding)
    && InBounds(s.sequences)
    && (forall target | target in s.sequences :: ItemsFit(target, s.sequences[target].values))
  }

  lemma StartInvariant()
    ensures ServerInvariant(StartServer())
  {
  }

  lemma SelectedFits(s: Server, target: string)
    requires ServerInvariant(s) && TargetParts(target).Some?
    ensures var value := Selected(s.sequences, target).value; value.Some? ==> ValidPatch(target, value.value)
    ensures InBounds(Consumed(s.sequences, target))
    ensures ServerInvariant(s.(sequences := Consumed(s.sequences, target)))
  {
    var after := Consumed(s.sequences, target);
    forall t | t in after ensures ItemsFit(t, after[t].values) {
      assert after[t].values == Lookup(s.sequences, t).values;
    }
  }

  /** The fields the next item of a target's sequence would replace. */
  function Override(s: Server, target: string): Fields {
    var value := Selected(s.sequences, target).value;
    if value.Some? && value.value.Object? then value.value.fields else map[]
  }

  lemma RefusedAnswer(s: Server, r: Request)
    requires ServerInvariant(s) && Rejection(r) != 0
    ensures EncodeResponse(r, Failure(Rejection(r))).Some?
    ensures HandleFrame(s, r) == Answered(s, EncodeResponse(r, Failure(Rejection(r))).value)
  {
    WritesAreAtomic(s.holding, r, 0);
  }

  lemma OverrideFits(s: Server, r: Request)
    requires ServerInvariant(s) && Rejection(r) == 0
    ensures |r.data| >= 4 && Supported(PartsOf(r)) && TargetParts(Print(PartsOf(r))) == Some(PartsOf(r))
    ensures var p := PartsOf(r);
      var normal := Response(s.holding, r);
      && FitsParts(p, normal) && Override(s, Print(p)).Keys <= normal.Keys
      && FitsParts(p, normal + Override(s, Print(p)))
      && ExceptionOf(normal) == Number(0)
  {
    var p := PartsOf(r);
    ResponseFits(s.holding, r);
    TargetRoundTrip(Print(p), p);
    SelectedFits(s, Print(p));
    if Selected(s.sequences, Print(p)).value.Some? {
      PatchFitsAnyResponse(p, Override(s, Print(p)), Response(s.holding, r));
    } else {
      assert Response(s.holding, r) + map[] == Response(s.holding, r);
    }
  }

  lemma ServedAnswer(s: Server, r: Request)
    requires ServerInvariant(s) && Rejection(r) == 0
    ensures |r.data| >= 4
    ensures var target := Print(PartsOf(r));
      var bytes := EncodeResponse(r, Response(s.holding, r) + Override(s, target));
      && bytes.Some?
      && HandleFrame(s, r)
         == Answered(s.(holding := Written(s.holding, r), sequences := Consumed(s.sequences, target)), bytes.value)
  {
    OverrideFits(s, r);
    var target := Print(PartsOf(r));
    FittingFieldsEncode(r, Response(s.holding, r) + Override(s, target));
    SelectedFits(s, target);
  }

  /** What the peer gets, in every state the host can be in: nothing on the way from the registers
      through the printed and re-read target, the override and the encoding ever raises.

      A request the device refuses gets its natural exception, uses up nothing and writes nothing.  Any
      other is executed first; then the next item of its sequence, if any, replaces the fields it names
      and the device's own values stand for the rest. */
  lemma EveryFrameIsAnswered(s: Server, r: Request)
    requires ServerInvariant(s)
    ensures ServerInvariant(HandleFrame(s, r).server)
    ensures HandleFrame(s, r).Answered?
    ensures Rejection(r) != 0 ==>
      && HandleFrame(s, r).server == s
      && Some(HandleFrame(s, r).bytes) == EncodeResponse(r, Failure(Rejection(r)))
    ensures Rejection(r) == 0 ==>
      && |r.data| >= 4
      && var target := Print(PartsOf(r));
         && HandleFrame(s, r).server
            == s.(holding := Written(s.holding, r), sequences := Consumed(s.sequences, target))
         && Some(HandleFrame(s, r).bytes) == EncodeResponse(r, Response(s.holding, r) + Override(s, target))
  {
    if Rejection(r) != 0 {
      RefusedAnswer(s, r);
    } else {
      ServedAnswer(s, r);
      OverrideFits(s, r);
      WritesAreAtomic(s.holding, r, 0);
      SelectedFits(s, Print(PartsOf(r)));
    }
  }

  /** What one frame keeps. */
  lemma FrameKeeps(s: Server, r: Request)
    requires ServerInvariant(s)
    ensures var h := HandleFrame(s, r);
      h.Answered? && ServerInvariant(h.server) && h.server.generation == s.generation && h.server.failed == s.failed
  {
    EveryFrameIsAnswered(s, r);
  }

  lemma DispatchedInvariant(s: Server, c: Control)
    requires ServerInvariant(s)
    ensures ServerInvariant(Dispatched(s, c).server)
  {
    if c.SetSequence? && ValidSequence(c.target, c.values) {
      var after := Configured(s.sequences, c.target, c.values.value);
      forall t | t in after ensures ItemsFit(t, after[t].values) {
        if t != c.target {
          assert after[t] == s.sequences[t];
        }
      }
    }
  }

  // ---------------------------------------------------------------------------------------------
  // One connection.

  ghost predicate InService(s: Server, generation: nat) {
    ServerInvariant(s) && InForce(s, generation)
  }

  lemma SectionKeeps(s: Server, r: Request)
    requires InService(s, s.generation)
    ensures var h := Section(s.generation)(s, r); h.Answered? && InService(h.server, s.generation)
  {
    FrameKeeps(s, r);
  }

  /** Requests served in order by a server that has not failed: every one is answered. */
  lemma AllAreAnswered(s: Server, requests: seq<Request>)
    requires ServerInvariant(s) && !s.failed
    ensures var after := Serve(Section(s.generation), Served(s, [], [], false), requests);
      !after.ended && after.handled == requests && ServerInvariant(after.server)
  {
    ghost var good := (t: Server) => InService(t, s.generation);
    forall t, r | good(t)
      ensures Section(s.generation)(t, r).Answered? && good(Section(s.generation)(t, r).server)
    {
      SectionKeeps(t, r);
    }
    GoodHandlerAnswersAll(Section(s.generation), good, Served(s, [], [], false), requests);
    assert [] + requests == requests;
  }

  /** One connection with no concurrent control traffic, for every stream and every way it is cut into
      received chunks: each frame of the stream is handled once and answered, in order, and the
      connection closes only if the stream runs into a malformed header. */
  lemma ConnectionServesItsFrames(s: Server, chunks: seq<seq<byte>>)
    requires ServerInvariant(s) && !s.failed && Received(chunks)
    ensures var session := ReceiveAll(Section(s.generation), Opened(s), chunks);
      var stream := Joined(chunks);
      var served := Serve(Section(s.generation), Served(s, [], [], false), Frames(stream));
      && session.handled == Frames(stream)
      && session.server == served.server && session.sent == served.sent
      && (session.open <==> !GoesWrong(stream))
      && ServerInvariant(session.server)
  {
    var stream := Joined(chunks);
    SegmentationDoesNotMatter(Section(s.generation), s, chunks);
    DrainServesFrames(Section(s.generation), Opened(s).(buffer := stream));
    AllAreAnswered(s, Frames(stream));
  }
}
