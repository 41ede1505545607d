/** What aggregation conserves: the completion against the upstream events themselves. */
module Conservation {
  import opened Sequences
  import opened SseFraming
  import opened Chunks
  import opened Transformer
  import opened ChunkGrammar
  import opened Aggregation
  import opened UpstreamPayloads
  import SseReader
  import Text

  // ---- from events to the fold -----------------------------------------------

  function AddChunks(f: Fold, chunks: seq<Chunk>): Fold {
    if chunks == [] then f else AddFrame(AddChunks(f, Init(chunks)), AsStreaming(Last(chunks)))
  }

  /** The fold of everything the transformer emits for `evs`. */
  function FoldOf(model: string, evs: seq<Envelope>): Fold {
    AddChunks(NOTHING, Stream(model, evs))
  }

  lemma {:induction false} AddChunksAppend(f: Fold, a: seq<Chunk>, b: seq<Chunk>)
    ensures AddChunks(f, a + b) == AddChunks(AddChunks(f, a), b)
  {
    if b == [] {
      assert a + b == a;
    } else {
      assert Init(a + b) == a + Init(b) && Last(a + b) == Last(b);
      AddChunksAppend(f, a, Init(b));
    }
  }

  lemma {:induction false} AddPrintedChunks(codec: Codec, f: Fold, chunks: seq<Chunk>)
    requires Faithful(codec)
    ensures AddFrames(codec, f, Map(codec.printChunk, chunks)) == AddChunks(f, chunks)
    decreases |chunks|
  {
    if chunks != [] {
      AddPrintedChunks(codec, f, Init(chunks));
      Snoc(Map(codec.printChunk, Init(chunks)), codec.printChunk(Last(chunks)));
    }
  }

  /** As long as nothing is rejected, the aggregator's state and fold are those of the
      transformer run on the events. */
  lemma {:induction false} ConsumeFollowsTheRun(codec: Codec, model: string, payloads: seq<bytes>)
    requires Faithful(codec) && !Consume(codec, model, payloads).failed
    ensures Consume(codec, model, payloads).state == StateAfter(TypedEvents(codec, payloads))
    ensures Consume(codec, model, payloads).fold == FoldOf(model, TypedEvents(codec, payloads))
    decreases |payloads|
  {
    hide Consume, TypedEvents, FoldOf, StateAfter, Faithful, Interpret, Replies, After, AddFrames, Map;
    if payloads == [] {
      NothingConsumed(codec, model);
    } else {
      var front, payload := Init(payloads), Last(payloads);
      assert payloads == front + [payload] && |front| < |payloads|;
      if Consume(codec, model, front).failed {
        ConsumeStops(codec, model, front, [payload]);
      }
      ConsumeFollowsTheRun(codec, model, front);
      OnePayload(codec, model, front, payload);
      TypedGrows(codec, front, payload);
      if Interpret(codec, payload).Known? {
        FoldOneMore(codec, model, TypedEvents(codec, front), Interpret(codec, payload).envelope);
      }
    }
  }

  /** An event more if the payload carries one. */
  lemma TypedGrows(codec: Codec, front: seq<bytes>, payload: bytes)
    ensures var evs, i := TypedEvents(codec, front), Interpret(codec, payload);
            TypedEvents(codec, front + [payload]) == if i.Known? then evs + [i.envelope] else evs
  {
    hide Interpret, TypedEvents, Trim;
    InterpretMeans(codec, payload);
    TypedOneMore(codec, front, payload);
    assert TypedEvents(codec, front) + [] == TypedEvents(codec, front);
  }

  lemma NothingConsumed(codec: Codec, model: string)
    ensures Consume(codec, model, []) == Progress(StateAfter([]), FoldOf(model, []), false)
    ensures TypedEvents(codec, []) == []
  {
  }

  /** The fold of a run and of the run with one event more. */
  lemma FoldOneMore(codec: Codec, model: string, evs: seq<Envelope>, v: Envelope)
    requires Faithful(codec)
    ensures StateAfter(evs + [v]) == After(StateAfter(evs), v.event)
    ensures var said := Replies(model, StateAfter(evs), v);
            FoldOf(model, evs + [v]) == AddFrames(codec, FoldOf(model, evs), Map(codec.printChunk, said))
  {
    hide Replies, After, Faithful, AddFrames, AddChunks;
    Snoc(evs, v);
    var said := Replies(model, StateAfter(evs), v);
    AddPrintedChunks(codec, FoldOf(model, evs), said);
    AddChunksAppend(NOTHING, Stream(model, evs), said);
  }

  /** One payload more: a known event is folded with all its chunks, any other changes nothing. */
  lemma OnePayload(codec: Codec, model: string, front: seq<bytes>, payload: bytes)
    requires !Consume(codec, model, front).failed
    ensures var p, q := Consume(codec, model, front), Consume(codec, model, front + [payload]);
            var i := Interpret(codec, payload);
            if i.Known? then
              var frames := Map(codec.printChunk, Replies(model, p.state, i.envelope));
              q == Progress(After(p.state, i.envelope.event), AddFrames(codec, p.fold, frames), false)
            else !q.failed ==> q == p
  {
    ConsumeOneMore(codec, model, front, payload);
    hide Consume, Interpret, Replies, After;
  }

  /** Whether the aggregator fails is decided by the payloads alone: it does exactly when one of them
      is unusable. */
  lemma {:induction false} ConsumeFailsIff(codec: Codec, model: string, payloads: seq<bytes>)
    ensures Consume(codec, model, payloads).failed <==> exists p :: p in payloads && Unusable(codec, p)
    decreases |payloads|
  {
    hide Consume, Unusable;
    if payloads == [] {
      StartOfRun(codec, model);
    } else {
      var front, payload := Init(payloads), Last(payloads);
      assert payloads == front + [payload] && |front| < |payloads|;
      ConsumeFailsIff(codec, model, front);
      if Consume(codec, model, front).failed {
        ConsumeStops(codec, model, front, [payload]);
      } else {
        FailsOnUnusable(codec, model, front, payload);
      }
    }
  }

  lemma FailsOnUnusable(codec: Codec, model: string, front: seq<bytes>, payload: bytes)
    requires !Consume(codec, model, front).failed
    ensures Consume(codec, model, front + [payload]).failed <==> Unusable(codec, payload)
  {
    hide Consume, Interpret, Trim, Replies, Next, Unusable, CarriesEvent, IsSentinel;
    ConsumeOneMore(codec, model, front, payload);
    InterpretMeans(codec, payload);
    OnlyUnusable(codec, payload);
  }

  lemma OnlyUnusable(codec: Codec, payload: bytes)
    ensures Blank(payload) || IsSentinel(payload) || CarriesEvent(codec, payload) ==> !Unusable(codec, payload)
  {
    hide Trim;
  }

  /** The buffered path by the payloads of the body: an unusable one, even after a sentinel, fails
      it, and only without one does a broken body count. */
  lemma BufferedOutcome(codec: Codec, body: (bytes, SseReader.End), model: string, now: int)
    ensures var bad := exists p :: p in SseReader.EventsUpTo(body.0, body.1) && Unusable(codec, p);
            && (Buffered(codec, body, model, now).TransformFailed? <==> bad)
            && (Buffered(codec, body, model, now).ReadFailed? <==> !bad && body.1.Failed?)
  {
    ConsumeFailsIff(codec, EffectiveModel(model), SseReader.EventsUpTo(body.0, body.1));
    hide Consume, SseReader.EventsUpTo, Unusable;
  }

  // ---- the texts --------------------------------------------------------------

  /** The event carries a sequence number that the aggregator can read back as `created`. */
  predicate Readable(v: Envelope) {
    v.seqno.Some? && v.seqno.value <= I64_MAX
  }

  predicate IsTextDelta(v: Envelope) {
    v.event.TextDelta? && v.event.text.Some?
  }

  /** The text deltas of the readable events. */
  function TextDeltas(evs: seq<Envelope>): seq<string> {
    if evs == [] then []
    else
      var v := Last(evs);
      TextDeltas(Init(evs)) + (if Readable(v) && IsTextDelta(v) then [v.event.text.value] else [])
  }

  function ReasoningDeltas(evs: seq<Envelope>): seq<string> {
    if evs == [] then []
    else
      var v := Last(evs);
      ReasoningDeltas(Init(evs)) + (if Readable(v) && Forwarded(v.event).Some? then [Forwarded(v.event).value] else [])
  }

  predicate IsCompletion(v: Envelope) {
    v.event.Completed? && v.event.usage.Some?
  }

  /** The finish reason and usage of the last readable `response.completed`. */
  function Ending(evs: seq<Envelope>): (string, Option<Usage>) {
    if evs == [] then ("", None)
    else
      var v := Last(evs);
      if Readable(v) && IsCompletion(v) then
        (if StateAfter(Init(evs)).tools != [] then "tool_calls" else "stop",
         Some(v.event.usage.value.GetOr(Usage(0, 0, 0, None, None))))
      else Ending(Init(evs))
  }

  /** What one event adds to the calls. */
  function AddCall(calls: map<nat, Call>, s: State, e: Event): map<nat, Call> {
    if Announcement(e).Some? then
      var t := Announcement(e).value;
      var index := Position(Announce(s.tools, t), t.item).GetOr(0);
      AddToolDelta(calls, ToolDelta(index, Some(t.callId), Some("function"), Some(t.name), Some("")))
    else if ArgumentsIndex(s.tools, e).Some? then
      AddToolDelta(calls, ToolDelta(ArgumentsIndex(s.tools, e).value, None, None, None, Some(e.args.value.1)))
    else calls
  }

  lemma OneChunk(f: Fold, c: Chunk)
    requires c.created.Some? && c.created.value <= I64_MAX
    ensures var r := AddChunks(f, [c]);
            && r.content == f.content + c.delta.content.GetOr("")
            && r.reasoning == f.reasoning + c.delta.reasoning.GetOr("")
            && r.finish == NonEmpty(c.finish, f.finish)
            && r.usage == (if c.usage.Some? then c.usage else f.usage)
            && r.calls == AddToolDeltas(f.calls, c.delta.toolCalls)
  {
    assert AddChunks(f, [c]) == AddFrame(f, AsStreaming(c)) by {
      assert Init([c]) == [] && AddChunks(f, []) == f;
    }
    var g := f.(responseId := if f.responseId == "" then c.id else f.responseId,
                model := if f.model == "" then c.model else f.model,
                created := if f.created == 0 then c.created.value else f.created,
                usage := if c.usage.Some? then c.usage else f.usage);
    OneChoice(g, Choice(c.delta, c.finish));
  }

  lemma OneChoice(f: Fold, c: Choice)
    ensures AddChoices(f, [c]) == AddChoice(f, c)
  {
    assert Init([c]) == [] && AddChoices(f, []) == f;
  }

  /** The frames of an event that is not readable are skipped. */
  lemma UnreadableIsSkipped(f: Fold, model: string, s: State, v: Envelope)
    requires !Readable(v)
    ensures AddChunks(f, Replies(model, s, v)) == f
  {
    var chunks := Replies(model, s, v);
    assert forall c :: c in chunks ==> AsStreaming(c).None?;
    AllSkipped(f, chunks);
  }

  lemma {:induction false} AllSkipped(f: Fold, chunks: seq<Chunk>)
    requires forall c :: c in chunks ==> AsStreaming(c).None?
    ensures AddChunks(f, chunks) == f
  {
    if chunks != [] {
      assert Last(chunks) in chunks;
      AllSkipped(f, Init(chunks));
    }
  }

  lemma EventEffect(f: Fold, model: string, s: State, v: Envelope)
    requires Readable(v)
    ensures var r, e := AddChunks(f, Replies(model, s, v)), v.event;
            && r.content == f.content + (if e.TextDelta? && e.text.Some? then e.text.value else "")
            && r.reasoning == f.reasoning + Forwarded(e).GetOr("")
            && (if e.Completed? && e.usage.Some? then
                  && r.finish == (if s.tools != [] then "tool_calls" else "stop")
                  && r.usage == Some(e.usage.value.GetOr(Usage(0, 0, 0, None, None)))
                else r.finish == f.finish && r.usage == f.usage)
            && r.calls == AddCall(f.calls, s, e)
  {
    hide AddChunks, Position, Announce, AddToolDelta;
    assert f.content + "" == f.content && f.reasoning + "" == f.reasoning;
    AddChunksNone(f);
    if Speaks(s, v.event) {
      var said := Chunk(s.responseId, v.seqno, model, Said(s, v.event), None, None);
      OneDelta(f.calls, Said(s, v.event).toolCalls);
      if s.roleSent {
        OneChunk(f, said);
        assert Replies(model, s, v) == [said];
      } else {
        var role := Chunk(s.responseId, v.seqno, model, EMPTY.(role := Some("assistant")), None, None);
        OneChunk(f, role);
        OneChunk(AddChunks(f, [role]), said);
        AddChunksAppend(f, [role], [said]);
      }
    } else if v.event.Completed? && v.event.usage.Some? {
      OneChunk(f, Replies(model, s, v)[0]);
    }
  }

  lemma AddChunksNone(f: Fold)
    ensures AddChunks(f, []) == f
  {
  }

  lemma OneDelta(calls: map<nat, Call>, ts: seq<ToolDelta>)
    ensures ts == [] ==> AddToolDeltas(calls, ts) == calls
    ensures |ts| == 1 ==> AddToolDeltas(calls, ts) == AddToolDelta(calls, ts[0])
  {
  }

  /** Content and reasoning are the in-order concatenation of their deltas, and the finish
      reason and usage those of the last completion event. */
  lemma {:induction false} TextsAreConserved(model: string, evs: seq<Envelope>)
    ensures FoldOf(model, evs).content == Concat(TextDeltas(evs))
    ensures FoldOf(model, evs).reasoning == Concat(ReasoningDeltas(evs))
    ensures (FoldOf(model, evs).finish, FoldOf(model, evs).usage) == Ending(evs)
  {
    if evs != [] {
      TextsAreConserved(model, Init(evs));
      var s, v := StateAfter(Init(evs)), Last(evs);
      AddChunksAppend(NOTHING, Stream(model, Init(evs)), Replies(model, s, v));
      assert TextDeltas(Init(evs)) + [] == TextDeltas(Init(evs));
      assert ReasoningDeltas(Init(evs)) + [] == ReasoningDeltas(Init(evs));
      if Readable(v) {
        EventEffect(FoldOf(model, Init(evs)), model, s, v);
        assert Concat(TextDeltas(Init(evs))) + "" == Concat(TextDeltas(Init(evs)));
        assert Concat(ReasoningDeltas(Init(evs))) + "" == Concat(ReasoningDeltas(Init(evs)));
        if IsTextDelta(v) {
          Snoc(TextDeltas(Init(evs)), v.event.text.value);
        }
        if Forwarded(v.event).Some? {
          Snoc(ReasoningDeltas(Init(evs)), Forwarded(v.event).value);
        }
      } else {
        UnreadableIsSkipped(FoldOf(model, Init(evs)), model, s, v);
      }
    }
  }

  // ---- the heading ------------------------------------------------------------

  /** The chunks that read back. */
  function ReadBackOf(chunks: seq<Chunk>): seq<StreamingChunk> {
    if chunks == [] then []
    else
      var c := AsStreaming(Last(chunks));
      ReadBackOf(Init(chunks)) + (if c.Some? then [c.value] else [])
  }

  function FirstId(chunks: seq<StreamingChunk>, otherwise: string): string {
    if chunks == [] then otherwise
    else if chunks[0].id != "" then chunks[0].id
    else FirstId(chunks[1..], otherwise)
  }

  function FirstCreated(chunks: seq<StreamingChunk>, otherwise: int): int {
    if chunks == [] then otherwise
    else if chunks[0].created != 0 then chunks[0].created
    else FirstCreated(chunks[1..], otherwise)
  }

  lemma {:induction false} FirstOneMore(chunks: seq<StreamingChunk>, c: StreamingChunk)
    ensures FirstId(chunks + [c], "") == if FirstId(chunks, "") != "" then FirstId(chunks, "") else c.id
    ensures FirstCreated(chunks + [c], 0) == if FirstCreated(chunks, 0) != 0 then FirstCreated(chunks, 0) else c.created
  {
    if chunks == [] {
      assert [] + [c] == [c];
    } else {
      assert (chunks + [c])[0] == chunks[0] && (chunks + [c])[1..] == chunks[1..] + [c];
      FirstOneMore(chunks[1..], c);
    }
  }

  lemma {:induction false} FirstDefaults(chunks: seq<StreamingChunk>, id: string, created: int)
    ensures FirstId(chunks, id) == if FirstId(chunks, "") == "" then id else FirstId(chunks, "")
    ensures FirstCreated(chunks, created) == if FirstCreated(chunks, 0) == 0 then created else FirstCreated(chunks, 0)
  {
    if chunks != [] {
      FirstDefaults(chunks[1..], id, created);
    }
  }

  /** All chunks of the transformer name its model, and the only role they carry is the assistant's. */
  ghost predicate OfModel(model: string, chunks: seq<Chunk>) {
    forall c :: c in chunks ==> c.model == model && (c.delta.role.Some? ==> c.delta.role == Some("assistant"))
  }

  lemma RepliesAreOfModel(model: string, s: State, v: Envelope)
    ensures OfModel(model, Replies(model, s, v))
  {
    hide Announce, Position;
  }

  lemma {:induction false} StreamIsOfModel(model: string, evs: seq<Envelope>)
    ensures OfModel(model, Stream(model, evs))
  {
    if evs != [] {
      hide Replies, StateAfter;
      StreamIsOfModel(model, Init(evs));
      RepliesAreOfModel(model, StateAfter(Init(evs)), Last(evs));
    }
  }

  lemma {:induction false} HeadingIsTheFirst(model: string, chunks: seq<Chunk>)
    requires OfModel(model, chunks)
    ensures var f, read := AddChunks(NOTHING, chunks), ReadBackOf(chunks);
            && f.responseId == FirstId(read, "") && f.created == FirstCreated(read, 0)
            && f.model == (if read == [] then "" else model)
            && f.role in {"", "assistant"}
  {
    if chunks != [] {
      hide AddChoices, AddToolDeltas;
      var c := Last(chunks);
      assert c in chunks && forall b :: b in Init(chunks) ==> b in chunks;
      HeadingIsTheFirst(model, Init(chunks));
      if AsStreaming(c).Some? {
        FirstOneMore(ReadBackOf(Init(chunks)), AsStreaming(c).value);
        OneReadChunk(AddChunks(NOTHING, Init(chunks)), AsStreaming(c).value, Choice(c.delta, c.finish));
      } else {
        assert ReadBackOf(Init(chunks)) + [] == ReadBackOf(Init(chunks));
      }
    }
  }

  lemma OneReadChunk(f: Fold, c: StreamingChunk, choice: Choice)
    requires c.choices == [choice]
    ensures var r := AddFrame(f, Some(c));
            && r.responseId == (if f.responseId == "" then c.id else f.responseId)
            && r.created == (if f.created == 0 then c.created else f.created)
            && r.model == (if f.model == "" then c.model else f.model)
            && r.role == (if f.role == "" then NonEmpty(choice.delta.role, "") else f.role)
  {
    var g := f.(responseId := if f.responseId == "" then c.id else f.responseId,
                model := if f.model == "" then c.model else f.model,
                created := if f.created == 0 then c.created else f.created,
                usage := if c.usage.Some? then c.usage else f.usage);
    OneChoice(g, choice);
  }

  /** Every part of the completion but its tool calls against the events that the payloads carry:
      the heading is that of the chunks that read back, with the caller's model and clock for what
      they leave open, and reasoning is absent when there is none. */
  lemma CompletionIsConserved(codec: Codec, body: (bytes, SseReader.End), model: string, now: int)
    requires Faithful(codec) && !body.1.Failed?
    requires forall p :: p in SseReader.EventsUpTo(body.0, body.1) ==> !Unusable(codec, p)
    ensures Buffered(codec, body, model, now).Success?
    ensures var evs := TypedEvents(codec, SseReader.EventsUpTo(body.0, body.1));
            var c := Buffered(codec, body, model, now).completion;
            var read := ReadBackOf(Stream(EffectiveModel(model), evs));
            && c.id == FirstId(read, "chatcmpl-buffered") && c.created == FirstCreated(read, now)
            && c.model == (if read == [] then model else EffectiveModel(model))
            && c.role == "assistant"
            && c.content == Concat(TextDeltas(evs))
            && (var reasoning := Concat(ReasoningDeltas(evs));
                c.reasoning == if reasoning == "" then None else Some(reasoning))
            && c.finish == (if Ending(evs).0 == "" then "stop" else Ending(evs).0)
            && c.usage == Ending(evs).1
  {
    hide Consume, StateAfter, Stream, AddChunks, TextDeltas, ReasoningDeltas, Ending, Concat, InOrder;
    hide SseReader.EventsUpTo, TypedEvents, Faithful, ReadBackOf, FirstId, FirstCreated, OfModel, Text.Trim, Unusable;
    var effective, payloads := EffectiveModel(model), SseReader.EventsUpTo(body.0, body.1);
    ConsumeFailsIff(codec, effective, payloads);
    var evs := TypedEvents(codec, payloads);
    ConsumeFollowsTheRun(codec, effective, payloads);
    TextsAreConserved(effective, evs);
    StreamIsOfModel(effective, evs);
    HeadingIsTheFirst(effective, Stream(effective, evs));
    FirstDefaults(ReadBackOf(Stream(effective, evs)), "chatcmpl-buffered", now);
  }
}
