/** The stateful transformer from upstream events to chat-completion chunks, and the function
    on a three-field state that it implements. */
module Transformer {
  import opened Sequences
  import opened SseFraming
  import opened Chunks
  import Text

  // ---- what the transformer promises ----------------------------------------

  /** A tool call announced downstream; its index is its position. */
  datatype Tool = Tool(item: string, callId: string, name: string)

  datatype State = State(responseId: string, roleSent: bool, tools: seq<Tool>)

  const START := State("", false, [])

  ghost predicate DistinctItems(tools: seq<Tool>) {
    forall i, j :: 0 <= i < j < |tools| ==> tools[i].item != tools[j].item
  }

  function Position(tools: seq<Tool>, item: string): (p: Option<nat>)
    ensures p.Some? ==> p.value < |tools| && tools[p.value].item == item
    ensures p.None? ==> forall i :: 0 <= i < |tools| ==> tools[i].item != item
  {
    if tools == [] then None
    else if Last(tools).item == item then Some(|tools| - 1)
    else Position(Init(tools), item)
  }

  /** The tool call an event announces: a function call with a non-empty id and name. */
  function Announcement(e: Event): Option<Tool> {
    if e.ItemAdded? && e.added.Some? && e.added.value.Some? then
      var item := e.added.value.value;
      if item.kind == "function_call" && item.id != "" && item.name != "" then
        Some(Tool(item.id, if item.callId == "" then "call_" + item.id else item.callId, item.name))
      else None
    else None
  }

  /** A repeated announcement replaces the first one at the same index. */
  function Announce(tools: seq<Tool>, t: Tool): seq<Tool> {
    var p := Position(tools, t.item);
    if p.Some? then tools[p.value := t] else tools + [t]
  }

  /** The reasoning text an event forwards: deltas of the first output item only. */
  function Forwarded(e: Event): Option<string> {
    if e.Reasoning? && e.outputIndex == 0 && e.isDelta then e.content else None
  }

  function ArgumentsIndex(tools: seq<Tool>, e: Event): Option<nat> {
    if e.ArgumentsDelta? && e.args.Some? then Position(tools, e.args.value.0) else None
  }

  /** Events that reach the client as something other than a finish chunk. */
  predicate Speaks(s: State, e: Event) {
    || (e.TextDelta? && e.text.Some?)
    || Forwarded(e).Some?
    || Announcement(e).Some?
    || ArgumentsIndex(s.tools, e).Some?
  }

  predicate Malformed(e: Event) {
    match e
    case TextDelta(t) => t.None?
    case Completed(u) => u.None?
    case ItemAdded(a) => a.None?
    case ArgumentsDelta(a) => a.None?
    case _ => false
  }

  function After(s: State, e: Event): State {
    if e.Created? then
      State(if e.id.Some? && e.id.value != "" then "chatcmpl-" + e.id.value else s.responseId, false, [])
    else
      State(s.responseId, s.roleSent || Speaks(s, e),
            if Announcement(e).Some? then Announce(s.tools, Announcement(e).value) else s.tools)
  }

  const EMPTY := Delta(None, None, None, [])

  /** What an event says, apart from the role chunk before it. */
  function Said(s: State, e: Event): Delta
    requires Speaks(s, e)
  {
    if e.TextDelta? then EMPTY.(content := e.text)
    else if e.Reasoning? then EMPTY.(reasoning := e.content)
    else if e.ItemAdded? then
      var t := Announcement(e).value;
      var index := Position(After(s, e).tools, t.item).GetOr(0);
      EMPTY.(toolCalls := [ToolDelta(index, Some(t.callId), Some("function"), Some(t.name), Some(""))])
    else
      EMPTY.(toolCalls := [ToolDelta(ArgumentsIndex(s.tools, e).value, None, None, None, Some(e.args.value.1))])
  }

  /** The chunk for `delta`, after the role chunk if that is still due. */
  function Spoken(model: string, responseId: string, roleSent: bool, seqno: Option<nat>, delta: Delta): seq<Chunk> {
    (if roleSent then [] else [Chunk(responseId, seqno, model, EMPTY.(role := Some("assistant")), None, None)])
    + [Chunk(responseId, seqno, model, delta, None, None)]
  }

  /** The chunks sent for one event. */
  function Replies(model: string, s: State, v: Envelope): seq<Chunk> {
    if Speaks(s, v.event) then Spoken(model, s.responseId, s.roleSent, v.seqno, Said(s, v.event))
    else if v.event.Completed? && v.event.usage.Some? then
      [Chunk(s.responseId, v.seqno, model, EMPTY,
             Some(if s.tools != [] then "tool_calls" else "stop"),
             Some(v.event.usage.value.GetOr(Usage(0, 0, 0, None, None))))]
    else []
  }

  /** One event payload as the transformer reads it. */
  datatype Input = Empty | Sentinel | Invalid | Known(envelope: Envelope)

  function Interpret(codec: Codec, data: bytes): Input {
    var trimmed := SseFraming.Trim(data);
    if trimmed == [] then Empty
    else if trimmed == DONE then Sentinel
    else
      var p := codec.parse(trimmed);
      if p.Typed? && !Malformed(p.envelope.event) then Known(p.envelope) else Invalid
  }

  datatype Result = Emitted(frames: seq<bytes>) | Swallowed | Done | Rejected

  function Answer(codec: Codec, model: string, s: State, i: Input): Result {
    match i
    case Empty => Swallowed
    case Sentinel => Done
    case Invalid => Rejected
    case Known(v) =>
      var chunks := Replies(model, s, v);
      if chunks == [] then Swallowed else Emitted(Map(codec.printChunk, chunks))
  }

  function Next(s: State, i: Input): State {
    if i.Known? then After(s, i.envelope.event) else s
  }

  /** The model named in every chunk. */
  function EffectiveModel(model: string): string {
    if Text.Trim(model) == "" then "gpt-5" else Text.Trim(model)
  }

  /** A model is kept without the whitespace around it; a blank one becomes the default. */
  lemma ModelIsKept(before: string, model: string, after: string)
    requires Text.AllWhitespace(before) && Text.AllWhitespace(after)
    requires model != "" ==> !Text.IsWhitespace(model[0]) && !Text.IsWhitespace(Last(model))
    ensures EffectiveModel(before + model + after) == if model == "" then "gpt-5" else model
  {
    Text.TrimUnpads(before, model, after);
    hide Text.Trim, Text.AllWhitespace, Text.IsWhitespace;
  }

  // ---- the table of events ------------------------------------------------------

  /** The frames for a delta: the role goes first unless it was sent before. */
  function DeltaFrames(codec: Codec, model: string, s: State, seqno: Option<nat>, d: Delta): seq<bytes> {
    var said := codec.printChunk(Chunk(s.responseId, seqno, model, d, None, None));
    if s.roleSent then [said]
    else
      var role := Delta(Some("assistant"), None, None, []);
      [codec.printChunk(Chunk(s.responseId, seqno, model, role, None, None)), said]
  }

  /** `d` is sent, and the role is out from then on. */
  predicate Says(codec: Codec, model: string, s: State, seqno: Option<nat>, d: Delta, r: Result, t: State) {
    r == Emitted(DeltaFrames(codec, model, s, seqno, d)) && t.responseId == s.responseId && t.roleSent
  }

  predicate Unchanged(s: State, expected: Result, r: Result, t: State) {
    r == expected && t == s
  }

  /** `tools` is `before` with the announced tool at `index`: at its old place, or else at the end. */
  ghost predicate Lists(before: seq<Tool>, t: Tool, index: nat, tools: seq<Tool>) {
    if exists i :: 0 <= i < |before| && before[i].item == t.item then
      index < |before| && before[index].item == t.item && tools == before[index := t]
    else index == |before| && tools == before + [t]
  }

  ghost predicate AnnouncedAt(codec: Codec, model: string, s: State, seqno: Option<nat>, tool: Tool, index: nat,
                              r: Result, t: State) {
    var told := ToolDelta(index, Some(tool.callId), Some("function"), Some(tool.name), Some(""));
    Lists(s.tools, tool, index, t.tools) && Says(codec, model, s, seqno, Delta(None, None, None, [told]), r, t)
  }

  /** The client is told of the tool under the index it is listed at. */
  ghost predicate Announced(codec: Codec, model: string, s: State, seqno: Option<nat>, tool: Tool,
                            r: Result, t: State) {
    exists index: nat :: AnnouncedAt(codec, model, s, seqno, tool, index, r, t)
  }

  /** Only a function call with an id and a name is announced, if need be under a made-up call id. */
  ghost predicate ObeysItem(codec: Codec, model: string, s: State, seqno: Option<nat>, item: Item,
                            r: Result, t: State) {
    if item.kind != "function_call" || item.id == "" || item.name == "" then Unchanged(s, Swallowed, r, t)
    else
      var callId := if item.callId == "" then "call_" + item.id else item.callId;
      Announced(codec, model, s, seqno, Tool(item.id, callId, item.name), r, t)
  }

  /** What the client is told of each kind of event, and what is remembered of it. */
  ghost predicate ObeysEvent(codec: Codec, model: string, s: State, v: Envelope, r: Result, t: State) {
    match v.event
    case Created(id) =>
      r == Swallowed && t == State(if id.GetOr("") == "" then s.responseId else "chatcmpl-" + id.value, false, [])
    case TextDelta(None) => Unchanged(s, Rejected, r, t)
    case TextDelta(Some(text)) =>
      Says(codec, model, s, v.seqno, Delta(None, Some(text), None, []), r, t) && t.tools == s.tools
    case Completed(None) => Unchanged(s, Rejected, r, t)
    case Completed(Some(usage)) =>
      var finish := if s.tools == [] then "stop" else "tool_calls";
      var reported := if usage.Some? then usage.value else Usage(0, 0, 0, None, None);
      Unchanged(s, Emitted([codec.printChunk(Chunk(s.responseId, v.seqno, model, Delta(None, None, None, []),
                                                   Some(finish), Some(reported)))]), r, t)
    case ItemAdded(None) => Unchanged(s, Rejected, r, t)
    case ItemAdded(Some(None)) => Unchanged(s, Swallowed, r, t)
    case ItemAdded(Some(Some(item))) => ObeysItem(codec, model, s, v.seqno, item, r, t)
    case ArgumentsDelta(None) => Unchanged(s, Rejected, r, t)
    case ArgumentsDelta(Some((item, text))) =>
      if forall i :: 0 <= i < |s.tools| ==> s.tools[i].item != item then Unchanged(s, Swallowed, r, t)
      else
        exists index: nat ::
          && index < |s.tools| && s.tools[index].item == item && t.tools == s.tools
          && Says(codec, model, s, v.seqno,
                  Delta(None, None, None, [ToolDelta(index, None, None, None, Some(text))]), r, t)
    case Reasoning(outputIndex, isDelta, content) =>
      if outputIndex > 0 || !isDelta || content.None? then Unchanged(s, Swallowed, r, t)
      else Says(codec, model, s, v.seqno, Delta(None, None, Some(content.value), []), r, t) && t.tools == s.tools
    case ReasoningItemDone(_, _) => Unchanged(s, Swallowed, r, t)
    case OtherEvent => Unchanged(s, Swallowed, r, t)
  }

  /** What becomes of one payload: blanks are swallowed, the sentinel ends the stream, a typed event
      is answered by the table, and anything else is rejected. */
  ghost predicate Obeys(codec: Codec, model: string, s: State, data: bytes, r: Result, t: State) {
    var trimmed := SseFraming.Trim(data);
    if trimmed == [] then Unchanged(s, Swallowed, r, t)
    else if trimmed == DONE then Unchanged(s, Result.Done, r, t)
    else if codec.parse(trimmed).Typed? then ObeysEvent(codec, model, s, codec.parse(trimmed).envelope, r, t)
    else Unchanged(s, Rejected, r, t)
  }

  lemma SpokenIs(codec: Codec, model: string, s: State, seqno: Option<nat>, d: Delta)
    ensures Map(codec.printChunk, Spoken(model, s.responseId, s.roleSent, seqno, d))
         == DeltaFrames(codec, model, s, seqno, d)
  {
    var said := Chunk(s.responseId, seqno, model, d, None, None);
    var role := Chunk(s.responseId, seqno, model, EMPTY.(role := Some("assistant")), None, None);
    var frames := Map(codec.printChunk, Spoken(model, s.responseId, s.roleSent, seqno, d));
    if s.roleSent {
      assert Spoken(model, s.responseId, s.roleSent, seqno, d) == [said];
      assert frames == [codec.printChunk(said)];
    } else {
      assert Spoken(model, s.responseId, s.roleSent, seqno, d) == [role, said];
      assert frames == [codec.printChunk(role), codec.printChunk(said)];
    }
  }

  lemma AnnouncementObeys(codec: Codec, model: string, s: State, v: Envelope, item: Item)
    requires DistinctItems(s.tools) && v.event == ItemAdded(Some(Some(item)))
    ensures ObeysEvent(codec, model, s, v, Answer(codec, model, s, Known(v)), After(s, v.event))
  {
    hide Answer, After;
    var r, t := Answer(codec, model, s, Known(v)), After(s, v.event);
    AddedEffect(codec, model, s, v);
    if Announcement(v.event).Some? {
      hide Position, Announce, Spoken, DeltaFrames, Map, Answer, After, Lists;
      var tool := Announcement(v.event).value;
      var index := Position(Announce(s.tools, tool), tool.item).GetOr(0);
      AnnounceLists(s.tools, tool);
      var told := ToolDelta(index, Some(tool.callId), Some("function"), Some(tool.name), Some(""));
      SpokenIs(codec, model, s, v.seqno, Delta(None, None, None, [told]));
      assert AnnouncedAt(codec, model, s, v.seqno, tool, index, r, t);
    }
  }

  lemma ArgumentsObey(codec: Codec, model: string, s: State, v: Envelope)
    requires DistinctItems(s.tools) && v.event.ArgumentsDelta? && v.event.args.Some?
    ensures ObeysEvent(codec, model, s, v, Answer(codec, model, s, Known(v)), After(s, v.event))
  {
    hide Position, Announce, Spoken, DeltaFrames, Map;
    ArgumentsEffect(codec, model, s, v);
    if ArgumentsIndex(s.tools, v.event).Some? {
      SpokenIs(codec, model, s, v.seqno, Said(s, v.event));
    }
  }

  lemma AnnounceLists(tools: seq<Tool>, t: Tool)
    ensures var index := Position(Announce(tools, t), t.item).GetOr(0);
            DistinctItems(tools) ==> Lists(tools, t, index, Announce(tools, t))
  {
    if DistinctItems(tools) {
      AnnouncePosition(tools, t);
    }
  }

  lemma OtherEventObeys(codec: Codec, model: string, s: State, v: Envelope)
    requires !Malformed(v.event) && !v.event.ArgumentsDelta? && (v.event.ItemAdded? ==> v.event.added.value.None?)
    ensures ObeysEvent(codec, model, s, v, Answer(codec, model, s, Known(v)), After(s, v.event))
  {
    hide DeltaFrames, Map;
    if Speaks(s, v.event) {
      SpokenIs(codec, model, s, v.seqno, Said(s, v.event));
    } else if v.event.Completed? {
      OnePrinted(codec, Replies(model, s, v)[0]);
    }
  }

  lemma OnePrinted(codec: Codec, c: Chunk)
    ensures Map(codec.printChunk, [c]) == [codec.printChunk(c)]
  {
  }

  /** The transformer's answer is the one of the table. */
  lemma AnswerObeys(codec: Codec, model: string, s: State, data: bytes)
    requires DistinctItems(s.tools)
    ensures var i := Interpret(codec, data); Obeys(codec, model, s, data, Answer(codec, model, s, i), Next(s, i))
  {
    hide SseFraming.Trim, Answer, After, ObeysEvent, Replies;
    var i := Interpret(codec, data);
    if i.Known? {
      var e := i.envelope.event;
      if e.ItemAdded? && e.added.value.Some? {
        AnnouncementObeys(codec, model, s, i.envelope, e.added.value.value);
      } else if e.ArgumentsDelta? {
        ArgumentsObey(codec, model, s, i.envelope);
      } else {
        OtherEventObeys(codec, model, s, i.envelope);
      }
    } else {
      NotKnownObeys(codec, model, s, data);
    }
  }

  lemma NotKnownObeys(codec: Codec, model: string, s: State, data: bytes)
    requires !Interpret(codec, data).Known?
    ensures Obeys(codec, model, s, data, Answer(codec, model, s, Interpret(codec, data)), s)
  {
    hide SseFraming.Trim;
  }

  // ---- the transformer -------------------------------------------------------

  /** The maps list exactly the given tools; the index map is a bijection onto `0..|tools|`. */
  ghost predicate Tabulates(tools: seq<Tool>, index: map<string, nat>, id: map<string, string>,
                            name: map<string, string>) {
    && index.Keys == id.Keys == name.Keys
    && (forall i :: 0 <= i < |tools| ==>
          var t := tools[i]; t.item in index && index[t.item] == i && id[t.item] == t.callId && name[t.item] == t.name)
    && (forall k :: k in index ==> index[k] < |tools| && tools[index[k]].item == k)
  }

  lemma TabulatesDistinct(tools: seq<Tool>, index: map<string, nat>, id: map<string, string>,
                          name: map<string, string>, k: string)
    requires Tabulates(tools, index, id, name)
    ensures DistinctItems(tools)
    ensures Position(tools, k) == if k in index then Some(index[k]) else None
  {
    if k in index {
      PositionIsIndex(tools, index[k]);
    }
  }

  lemma TabulateOneMore(tools: seq<Tool>, index: map<string, nat>, id: map<string, string>,
                        name: map<string, string>, t: Tool)
    requires Tabulates(tools, index, id, name)
    ensures DistinctItems(Announce(tools, t))
    ensures var i := if t.item in index then index[t.item] else |tools|;
            && Tabulates(Announce(tools, t), index[t.item := i], id[t.item := t.callId], name[t.item := t.name])
            && Position(Announce(tools, t), t.item) == Some(i)
            && |Announce(tools, t)| == (if t.item in index then |tools| else |tools| + 1)
  {
    hide Announce, Position;
    TabulatesDistinct(tools, index, id, name, t.item);
    AnnouncePosition(tools, t);
    var w := Announce(tools, t);
    var i := if t.item in index then index[t.item] else |tools|;
    assert forall j :: 0 <= j < |tools| && j != i ==> w[j] == tools[j] && w[j].item != t.item;
  }

  class SSETransformer {
    const codec: Codec
    const model: string
    var responseId: string
    var roleSent: bool
    var toolIndexByItemId: map<string, nat>
    var toolIdByItemId: map<string, string>
    var toolNameByItemId: map<string, string>
    var nextToolIndex: nat
    var sawToolCalls: bool
    var reasoningItems: nat
    var reasoningEncryptedBytes: nat
    var reasoningSummaryPresent: bool
    /** The announced tools in index order. */
    ghost var tools: seq<Tool>

    /** The three maps share one domain, the index map is a bijection from it onto
        `0..nextToolIndex`, and `sawToolCalls` says whether it is non-empty. */
    ghost predicate Valid()
      reads this
    {
      && Tabulates(tools, toolIndexByItemId, toolIdByItemId, toolNameByItemId)
      && nextToolIndex == |tools|
      && (sawToolCalls <==> tools != [])
    }

    ghost function Abstraction(): State
      reads this
    {
      State(responseId, roleSent, tools)
    }

    constructor (codec: Codec, model: string)
      ensures Valid() && Abstraction() == START && this.codec == codec
      ensures this.model == EffectiveModel(model)
    {
      hide Text.Trim;
      var trimmed := Text.Trim(model);
      this.codec := codec;
      this.model := if trimmed == "" then "gpt-5" else trimmed;
      responseId, roleSent := "", false;
      toolIndexByItemId, toolIdByItemId, toolNameByItemId := map[], map[], map[];
      nextToolIndex, sawToolCalls := 0, false;
      reasoningItems, reasoningEncryptedBytes, reasoningSummaryPresent := 0, 0, false;
      tools := [];
    }

    method ResetResponseState()
      modifies this
      ensures Valid() && responseId == old(responseId) && !roleSent && tools == []
    {
      roleSent := false;
      toolIndexByItemId, toolIdByItemId, toolNameByItemId := map[], map[], map[];
      nextToolIndex, sawToolCalls := 0, false;
      reasoningItems, reasoningEncryptedBytes, reasoningSummaryPresent := 0, 0, false;
      tools := [];
    }

    function MakeChunk(seqno: Option<nat>, delta: Delta, finish: Option<string>, usage: Option<Usage>): bytes
      reads this
    {
      codec.printChunk(Chunk(responseId, seqno, model, delta, finish, usage))
    }

    /** The role chunk if it is still due, then the chunk for `delta`. */
    method Say(seqno: Option<nat>, delta: Delta) returns (r: Result)
      requires Valid()
      modifies this`roleSent
      ensures Valid() && roleSent
      ensures r == Emitted(Map(codec.printChunk, Spoken(model, responseId, old(roleSent), seqno, delta)))
    {
      var frames := [];
      if !roleSent {
        frames := [MakeChunk(seqno, EMPTY.(role := Some("assistant")), None, None)];
        roleSent := true;
      }
      frames := frames + [MakeChunk(seqno, delta, None, None)];
      r := Emitted(frames);
    }

    method HandleCreated(v: Envelope) returns (r: Result)
      requires Valid() && v.event.Created?
      modifies this
      ensures Valid() && Abstraction() == After(old(Abstraction()), v.event)
      ensures r == Answer(codec, model, old(Abstraction()), Known(v))
    {
      ResetResponseState();
      if v.event.id.Some? && v.event.id.value != "" {
        responseId := "chatcmpl-" + v.event.id.value;
      }
      r := Swallowed;
    }

    method HandleTextDelta(v: Envelope) returns (r: Result)
      requires Valid() && v.event.TextDelta? && !Malformed(v.event)
      modifies this
      ensures Valid() && Abstraction() == After(old(Abstraction()), v.event)
      ensures r == Answer(codec, model, old(Abstraction()), Known(v))
    {
      hide Valid, Position, Announce;
      r := Say(v.seqno, EMPTY.(content := v.event.text));
    }

    method HandleCompleted(v: Envelope) returns (r: Result)
      requires Valid() && v.event.Completed? && !Malformed(v.event)
      ensures Abstraction() == After(Abstraction(), v.event)
      ensures r == Answer(codec, model, Abstraction(), Known(v))
    {
      var finish := if sawToolCalls then "tool_calls" else "stop";
      var usage := v.event.usage.value.GetOr(Usage(0, 0, 0, None, None));
      r := Emitted([MakeChunk(v.seqno, EMPTY, Some(finish), Some(usage))]);
    }

    method HandleReasoning(v: Envelope) returns (r: Result)
      requires Valid() && v.event.Reasoning?
      modifies this
      ensures Valid() && Abstraction() == After(old(Abstraction()), v.event)
      ensures r == Answer(codec, model, old(Abstraction()), Known(v))
    {
      hide Valid, Position, Announce;
      if v.event.outputIndex > 0 || !v.event.isDelta || v.event.content.None? {
        return Swallowed;
      }
      r := Say(v.seqno, EMPTY.(reasoning := v.event.content));
    }

    /** Enter a tool in the maps: a new item gets the next index, a known one keeps its own. */
    method RecordTool(t: Tool) returns (index: nat)
      requires Valid()
      modifies this`toolIndexByItemId, this`toolIdByItemId, this`toolNameByItemId
      modifies this`nextToolIndex, this`sawToolCalls, this`tools
      ensures Valid() && tools == Announce(old(tools), t) && tools != []
      ensures Position(tools, t.item) == Some(index)
    {
      hide Announce, Position, Tabulates, DistinctItems;
      TabulateOneMore(tools, toolIndexByItemId, toolIdByItemId, toolNameByItemId, t);
      if t.item in toolIndexByItemId {
        index := toolIndexByItemId[t.item];
      } else {
        index := nextToolIndex;
        nextToolIndex := nextToolIndex + 1;
      }
      toolIndexByItemId := toolIndexByItemId[t.item := index];
      toolIdByItemId := toolIdByItemId[t.item := t.callId];
      toolNameByItemId := toolNameByItemId[t.item := t.name];
      sawToolCalls := true;
      tools := Announce(tools, t);
    }

    method HandleOutputItemAdded(v: Envelope) returns (r: Result)
      requires Valid() && v.event.ItemAdded? && !Malformed(v.event)
      modifies this
      ensures Valid() && Abstraction() == After(old(Abstraction()), v.event)
      ensures r == Answer(codec, model, old(Abstraction()), Known(v))
    {
      hide Announce, Position, Answer, After, Spoken, Tabulates;
      AddedEffect(codec, model, Abstraction(), v);
      if v.event.added.value.None? {
        return Swallowed;
      }
      var item := v.event.added.value.value;
      if item.kind != "function_call" || item.id == "" || item.name == "" {
        return Swallowed;
      }
      var callId := if item.callId == "" then "call_" + item.id else item.callId;
      var index := RecordTool(Tool(item.id, callId, item.name));
      var delta := ToolDelta(index, Some(callId), Some("function"), Some(item.name), Some(""));
      r := Say(v.seqno, EMPTY.(toolCalls := [delta]));
    }

    lemma ItemsAreDistinct()
      requires Valid()
      ensures DistinctItems(Abstraction().tools)
    {
      TabulatesDistinct(tools, toolIndexByItemId, toolIdByItemId, toolNameByItemId, "");
    }

    lemma IndexIsPosition(item: string)
      requires Valid()
      ensures Position(tools, item) == if item in toolIndexByItemId then Some(toolIndexByItemId[item]) else None
    {
      TabulatesDistinct(tools, toolIndexByItemId, toolIdByItemId, toolNameByItemId, item);
    }

    method HandleFunctionCallArgumentsDelta(v: Envelope) returns (r: Result)
      requires Valid() && v.event.ArgumentsDelta? && !Malformed(v.event)
      modifies this
      ensures Valid() && Abstraction() == After(old(Abstraction()), v.event)
      ensures r == Answer(codec, model, old(Abstraction()), Known(v))
    {
      var (item, delta) := v.event.args.value;
      hide Valid, Position, Answer, After, Spoken;
      ArgumentsEffect(codec, model, Abstraction(), v);
      IndexIsPosition(item);
      if item !in toolIndexByItemId {
        return Swallowed;
      }
      r := Say(v.seqno, EMPTY.(toolCalls := [ToolDelta(toolIndexByItemId[item], None, None, None, Some(delta))]));
    }

    /** Reasoning counters feed the logs only. */
    method NoteReasoningItem(v: Envelope)
      requires Valid() && v.event.ReasoningItemDone?
      modifies this`reasoningItems, this`reasoningEncryptedBytes, this`reasoningSummaryPresent
      ensures Valid() && Abstraction() == old(Abstraction())
    {
      reasoningItems := reasoningItems + 1;
      if v.event.encrypted.Some? {
        reasoningEncryptedBytes := reasoningEncryptedBytes + |v.event.encrypted.value|;
      }
      reasoningSummaryPresent := reasoningSummaryPresent || v.event.hasSummary;
    }

    /** What needs no handler. */
    lemma Unhandled(s: State, v: Envelope)
      ensures Answer(codec, model, s, Empty) == Swallowed && Answer(codec, model, s, Sentinel) == Done
      ensures Answer(codec, model, s, Invalid) == Rejected
      ensures v.event.OtherEvent? || v.event.ReasoningItemDone? ==>
                Answer(codec, model, s, Known(v)) == Swallowed && After(s, v.event) == s
    {
    }

    method Transform(data: bytes) returns (r: Result)
      requires Valid()
      modifies this
      ensures Valid() && Abstraction() == Next(old(Abstraction()), Interpret(codec, data))
      ensures r == Answer(codec, model, old(Abstraction()), Interpret(codec, data))
      ensures Obeys(codec, model, old(Abstraction()), data, r, Abstraction())
    {
      ItemsAreDistinct();
      AnswerObeys(codec, model, Abstraction(), data);
      hide Answer, After, SseFraming.Trim, Valid, Obeys;
      var trimmed := SseFraming.Trim(data);
      Unhandled(Abstraction(), Envelope(None, OtherEvent));
      if trimmed == [] {
        return Swallowed;
      }
      if trimmed == DONE {
        return Done;
      }
      var parsed := codec.parse(trimmed);
      if !parsed.Typed? || Malformed(parsed.envelope.event) {
        return Rejected;
      }
      var v := parsed.envelope;
      Unhandled(Abstraction(), v);
      match v.event {
        case Created(_) => r := HandleCreated(v);
        case TextDelta(_) => r := HandleTextDelta(v);
        case Completed(_) => r := HandleCompleted(v);
        case ItemAdded(_) => r := HandleOutputItemAdded(v);
        case ArgumentsDelta(_) => r := HandleFunctionCallArgumentsDelta(v);
        case Reasoning(_, _, _) => r := HandleReasoning(v);
        case ReasoningItemDone(_, _) => NoteReasoningItem(v); r := Swallowed;
        case OtherEvent => r := Swallowed;
      }
    }
  }

  lemma ArgumentsEffect(codec: Codec, model: string, s: State, v: Envelope)
    requires v.event.ArgumentsDelta? && v.event.args.Some?
    ensures var (item, delta) := v.event.args.value;
            var p := Position(s.tools, item);
            if p.None? then Answer(codec, model, s, Known(v)) == Swallowed && After(s, v.event) == s
            else
              var said := EMPTY.(toolCalls := [ToolDelta(p.value, None, None, None, Some(delta))]);
              && After(s, v.event) == s.(roleSent := true)
              && Answer(codec, model, s, Known(v))
                 == Emitted(Map(codec.printChunk, Spoken(model, s.responseId, s.roleSent, v.seqno, said)))
  {
    hide Position, Map;
  }

  lemma AddedEffect(codec: Codec, model: string, s: State, v: Envelope)
    requires v.event.ItemAdded?
    ensures if Announcement(v.event).None? then Answer(codec, model, s, Known(v)) == Swallowed && After(s, v.event) == s
            else
              var t := Announcement(v.event).value;
              var index := Position(Announce(s.tools, t), t.item).GetOr(0);
              var delta := ToolDelta(index, Some(t.callId), Some("function"), Some(t.name), Some(""));
              var said := EMPTY.(toolCalls := [delta]);
              && After(s, v.event) == State(s.responseId, true, Announce(s.tools, t))
              && Answer(codec, model, s, Known(v))
                 == Emitted(Map(codec.printChunk, Spoken(model, s.responseId, s.roleSent, v.seqno, said)))
  {
    hide Position, Announce, Map;
  }

  lemma {:induction false} PositionIsIndex(tools: seq<Tool>, i: nat)
    requires DistinctItems(tools) && i < |tools|
    ensures Position(tools, tools[i].item) == Some(i)
  {
    if i < |tools| - 1 {
      PositionIsIndex(Init(tools), i);
    }
  }

  lemma AnnouncePosition(tools: seq<Tool>, t: Tool)
    requires DistinctItems(tools)
    ensures var p, w := Position(tools, t.item), Announce(tools, t);
            var i := p.GetOr(|tools|);
            && DistinctItems(w) && Position(w, t.item) == Some(i)
            && |w| == (if p.Some? then |tools| else |tools| + 1)
            && w[i] == t
            && forall j :: 0 <= j < |tools| && j != i ==> w[j] == tools[j]
  {
    var p := Position(tools, t.item);
    PositionIsIndex(Announce(tools, t), p.GetOr(|tools|));
  }
}
