/** The JSON values of the stream, abstractly: what an upstream payload parses to, the
    chat-completion chunks sent downstream, and the encoder and decoder between them and bytes. */
module Chunks {
  import opened Sequences
  import opened SseFraming

  datatype Usage = Usage(promptTokens: int, completionTokens: int, totalTokens: int,
                         cachedTokens: Option<int>, reasoningTokens: Option<int>)

  // ---- upstream ------------------------------------------------------------

  datatype Item = Item(kind: string, id: string, callId: string, name: string)

  /** A typed upstream event. Where the typed payload of a recognised event can fail to
      deserialize, the outer option is `None`. */
  datatype Event =
    | Created(id: Option<string>)
    | TextDelta(text: Option<string>)
    | Completed(usage: Option<Option<Usage>>)
    | ItemAdded(added: Option<Option<Item>>)
    | ArgumentsDelta(args: Option<(string, string)>)          // item id, delta
    | Reasoning(outputIndex: nat, isDelta: bool, content: Option<string>)
    | ReasoningItemDone(encrypted: Option<string>, hasSummary: bool)
    | OtherEvent

  datatype Envelope = Envelope(seqno: Option<nat>, event: Event)

  /** What the payload of one SSE event parses to. `isChunk` records whether the value already
      is a `chat.completion.chunk`. */
  datatype Parsed =
    | NotJson
    | Untyped(isChunk: bool)               // valid JSON without a string `type`
    | BadEnvelope(isChunk: bool)           // a string `type`, but an unusable `sequence_number`
    | Typed(isChunk: bool, envelope: Envelope)

  // ---- downstream ----------------------------------------------------------

  datatype ToolDelta = ToolDelta(index: nat, id: Option<string>, callType: Option<string>,
                                 name: Option<string>, arguments: Option<string>)

  /** Absent `tool_calls` is the empty list. */
  datatype Delta = Delta(role: Option<string>, content: Option<string>,
                         reasoning: Option<string>, toolCalls: seq<ToolDelta>)

  datatype Chunk = Chunk(id: string, created: Option<nat>, model: string, delta: Delta,
                         finish: Option<string>, usage: Option<Usage>)

  datatype Choice = Choice(delta: Delta, finish: Option<string>)

  datatype StreamingChunk = StreamingChunk(id: string, created: int, model: string,
                                           choices: seq<Choice>, usage: Option<Usage>)

  const I64_MAX: nat := 0x7FFF_FFFF_FFFF_FFFF

  /** A chunk as its reader sees it: `created` is an `i64` there, so a null or a larger number
      makes the whole frame unreadable. */
  function AsStreaming(c: Chunk): Option<StreamingChunk> {
    if c.created.None? || c.created.value > I64_MAX then None
    else Some(StreamingChunk(c.id, c.created.value, c.model, [Choice(c.delta, c.finish)], c.usage))
  }

  // ---- encoding ------------------------------------------------------------

  datatype Failure = UpstreamRead | BadEvent(payload: bytes)

  datatype Codec = Codec(
    parse: bytes -> Parsed,
    printChunk: Chunk -> bytes,
    printError: Failure -> bytes,
    readChunk: bytes -> Option<StreamingChunk>)

  /** Encoded JSON is one line and is never the sentinel. */
  predicate OneLine(p: bytes) {
    p != DONE && LF !in p && CR !in p
  }

  /** What is assumed of the JSON library. */
  ghost predicate Faithful(codec: Codec) {
    && (forall c: Chunk :: OneLine(codec.printChunk(c)) && codec.readChunk(codec.printChunk(c)) == AsStreaming(c))
    && (forall f: Failure :: OneLine(codec.printError(f)))
    && codec.parse(DONE).NotJson? && codec.parse([]).NotJson? && codec.readChunk(DONE).None?
  }
}
