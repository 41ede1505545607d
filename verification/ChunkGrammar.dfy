/** Whole runs of the transformer: the state after any event list, and the grammar of the
    chunks it emits between two `response.created` events. */
module ChunkGrammar {
  import opened Sequences
  import opened Chunks
  import opened Transformer

  function StateAfter(evs: seq<Envelope>): State {
    if evs == [] then START else After(StateAfter(Init(evs)), Last(evs).event)
  }

  /** All chunks emitted for `evs`. */
  function Stream(model: string, evs: seq<Envelope>): seq<Chunk> {
    if evs == [] then []
    else Stream(model, Init(evs)) + Replies(model, StateAfter(Init(evs)), Last(evs))
  }

  /** The chunks emitted since the latest `response.created`. */
  function Segment(model: string, evs: seq<Envelope>): seq<Chunk> {
    if evs == [] || Last(evs).event.Created? then []
    else Segment(model, Init(evs)) + Replies(model, StateAfter(Init(evs)), Last(evs))
  }

  predicate IsRole(c: Chunk) {
    && c.delta == EMPTY.(role := Some("assistant")) && c.finish.None? && c.usage.None?
  }

  predicate IsText(c: Chunk) {
    && (c.delta.content.Some? != c.delta.reasoning.Some?)
    && c.delta.role.None? && c.delta.toolCalls == [] && c.finish.None? && c.usage.None?
  }

  predicate IsTool(c: Chunk) {
    && |c.delta.toolCalls| == 1 && c.delta.toolCalls[0].arguments.Some?
    && c.delta == EMPTY.(toolCalls := c.delta.toolCalls) && c.finish.None? && c.usage.None?
  }

  predicate IsAnnouncement(c: Chunk) {
    && IsTool(c)
    && c.delta.toolCalls[0].id.Some? && c.delta.toolCalls[0].id.value != ""
    && c.delta.toolCalls[0].name.Some? && c.delta.toolCalls[0].name.value != ""
    && c.delta.toolCalls[0].arguments == Some("")
  }

  predicate IsArguments(c: Chunk) {
    IsTool(c) && c.delta.toolCalls[0].id.None? && c.delta.toolCalls[0].name.None?
  }

  predicate IsFinish(c: Chunk) {
    c.delta == EMPTY && c.finish.Some? && c.usage.Some?
  }

  ghost predicate HasRole(seg: seq<Chunk>) {
    exists c :: c in seg && IsRole(c)
  }

  ghost predicate Announced(seg: seq<Chunk>, index: nat) {
    exists c :: c in seg && IsAnnouncement(c) && c.delta.toolCalls[0].index == index
  }

  /** Which chunk may come next in a segment. */
  ghost predicate MayFollow(seg: seq<Chunk>, c: Chunk) {
    && (forall b :: b in seg ==> b.id == c.id && b.model == c.model)
    && if IsRole(c) then forall b :: b in seg ==> IsFinish(b)
       else if IsFinish(c) then
         c.finish.value == (if Announced(seg, 0) then "tool_calls" else "stop")
       else
         && HasRole(seg)
         && (|| IsText(c)
             || (IsArguments(c) && Announced(seg, c.delta.toolCalls[0].index))
             || (IsAnnouncement(c) && forall i: nat :: i < c.delta.toolCalls[0].index ==> Announced(seg, i)))
  }

  ghost predicate Grammatical(seg: seq<Chunk>) {
    seg != [] ==> Grammatical(Init(seg)) && MayFollow(Init(seg), Last(seg))
  }

  /** What a segment says about the state: its id and model, whether the role was sent, and
      which indices were announced. */
  ghost predicate Reflects(model: string, seg: seq<Chunk>, s: State) {
    && (forall c :: c in seg ==> c.id == s.responseId && c.model == model)
    && (s.roleSent <==> HasRole(seg))
    && (!s.roleSent ==> s.tools == [] && forall c :: c in seg ==> IsFinish(c))
    && (forall i: nat :: i < |s.tools| <==> Announced(seg, i))
    && DistinctItems(s.tools)
  }

  lemma Append(seg: seq<Chunk>, c: Chunk)
    requires Grammatical(seg) && MayFollow(seg, c)
    ensures Grammatical(seg + [c])
    ensures HasRole(seg + [c]) <==> HasRole(seg) || IsRole(c)
    ensures forall i: nat :: Announced(seg + [c], i) <==>
              Announced(seg, i) || (IsAnnouncement(c) && c.delta.toolCalls[0].index == i)
  {
    Snoc(seg, c);
    assert c in seg + [c];
    forall i: nat
      ensures Announced(seg + [c], i) <==> Announced(seg, i) || (IsAnnouncement(c) && c.delta.toolCalls[0].index == i)
    {
      if Announced(seg, i) {
        var b :| b in seg && IsAnnouncement(b) && b.delta.toolCalls[0].index == i;
        assert b in seg + [c];
      }
    }
    if HasRole(seg) {
      var b :| b in seg && IsRole(b);
      assert b in seg + [c];
    }
  }

  lemma AppendRole(model: string, seg: seq<Chunk>, s: State, seqno: Option<nat>)
    requires Grammatical(seg) && Reflects(model, seg, s) && !s.roleSent
    ensures var w := seg + [Chunk(s.responseId, seqno, model, EMPTY.(role := Some("assistant")), None, None)];
            Grammatical(w) && Reflects(model, w, s.(roleSent := true))
  {
    Append(seg, Chunk(s.responseId, seqno, model, EMPTY.(role := Some("assistant")), None, None));
  }

  lemma AppendSaid(model: string, seg: seq<Chunk>, s: State, v: Envelope)
    requires Grammatical(seg) && Reflects(model, seg, s) && s.roleSent && Speaks(s, v.event)
    ensures var w := seg + [Chunk(s.responseId, v.seqno, model, Said(s, v.event), None, None)];
            Grammatical(w) && Reflects(model, w, After(s, v.event))
  {
    hide Announce, Position, Grammatical;
    var c := Chunk(s.responseId, v.seqno, model, Said(s, v.event), None, None);
    if Announcement(v.event).Some? {
      AnnouncePosition(s.tools, Announcement(v.event).value);
      assert IsAnnouncement(c);
    }
    Append(seg, c);
  }

  lemma AppendFinish(model: string, seg: seq<Chunk>, s: State, c: Chunk)
    requires Grammatical(seg) && Reflects(model, seg, s) && IsFinish(c) && c.id == s.responseId && c.model == model
    requires c.finish.value == (if s.tools != [] then "tool_calls" else "stop")
    ensures Grammatical(seg + [c]) && Reflects(model, seg + [c], s)
  {
    hide Grammatical;
    assert 0 < |s.tools| <==> Announced(seg, 0);
    Append(seg, c);
  }

  lemma SegmentStep(model: string, seg: seq<Chunk>, s: State, v: Envelope)
    requires Grammatical(seg) && Reflects(model, seg, s) && !v.event.Created?
    ensures var w := seg + Replies(model, s, v);
            Grammatical(w) && Reflects(model, w, After(s, v.event))
  {
    hide Grammatical, Reflects;
    if Speaks(s, v.event) {
      var role := Chunk(s.responseId, v.seqno, model, EMPTY.(role := Some("assistant")), None, None);
      var said := Chunk(s.responseId, v.seqno, model, Said(s, v.event), None, None);
      if s.roleSent {
        AppendSaid(model, seg, s, v);
        assert Replies(model, s, v) == [said];
      } else {
        AppendRole(model, seg, s, v.seqno);
        AppendSaid(model, seg + [role], s.(roleSent := true), v);
        Associative(seg, [role], [said]);
      }
    } else if v.event.Completed? && v.event.usage.Some? {
      AppendFinish(model, seg, s, Replies(model, s, v)[0]);
    } else {
      assert seg + [] == seg;
    }
  }

  /** In every segment of every run, the role chunk comes at most once and before any content,
      reasoning or tool chunk; argument chunks only use announced indices; announcements carry a
      non-empty id and name and their indices are consecutive from 0; the finish reason is
      `tool_calls` exactly when an announcement came before; all chunks share one id. */
  lemma {:induction false} SegmentIsGrammatical(model: string, evs: seq<Envelope>)
    ensures Grammatical(Segment(model, evs)) && Reflects(model, Segment(model, evs), StateAfter(evs))
  {
    if evs != [] && !Last(evs).event.Created? {
      SegmentIsGrammatical(model, Init(evs));
      SegmentStep(model, Segment(model, Init(evs)), StateAfter(Init(evs)), Last(evs));
    }
  }

  /** The segments are consecutive stretches of the stream that is sent. */
  lemma {:induction false} SegmentEndsStream(model: string, evs: seq<Envelope>)
    ensures |Segment(model, evs)| <= |Stream(model, evs)|
    ensures Stream(model, evs)[|Stream(model, evs)| - |Segment(model, evs)|..] == Segment(model, evs)
    ensures evs != [] && Last(evs).event.Created? ==> Stream(model, evs) == Stream(model, Init(evs))
  {
    if evs != [] && !Last(evs).event.Created? {
      SegmentEndsStream(model, Init(evs));
    }
  }

  lemma {:induction false} IdStays(before: seq<Envelope>, after: seq<Envelope>)
    requires forall v :: v in after ==> !v.event.Created?
    ensures StateAfter(before + after).responseId == StateAfter(before).responseId
  {
    if after == [] {
      assert before + after == before;
    } else {
      assert Init(before + after) == before + Init(after) && Last(after) in after;
      IdStays(before, Init(after));
    }
  }

  /** All chunks of a response carry its id and the model. */
  lemma ChunksCarryTheResponseId(model: string, before: seq<Envelope>, seqno: Option<nat>, id: string,
                                 after: seq<Envelope>)
    requires id != "" && forall v :: v in after ==> !v.event.Created?
    ensures forall c :: c in Segment(model, before + [Envelope(seqno, Created(Some(id)))] + after) ==>
              c.id == "chatcmpl-" + id && c.model == model
  {
    var start := before + [Envelope(seqno, Created(Some(id)))];
    Snoc(before, Envelope(seqno, Created(Some(id))));
    IdStays(start, after);
    SegmentIsGrammatical(model, start + after);
  }
}
