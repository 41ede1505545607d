/** What the payloads of an upstream stream say, read off the parsed values alone. */
module UpstreamPayloads {
  import opened Sequences
  import opened SseFraming
  import opened Chunks
  import opened Transformer

  predicate IsSentinel(payload: bytes) {
    Trim(payload) == DONE
  }

  predicate HasContent(payload: bytes) {
    !Blank(payload) && !IsSentinel(payload)
  }

  /** A typed event whose payload deserializes. */
  predicate Usable(p: Parsed) {
    p.Typed? && !Malformed(p.envelope.event)
  }

  predicate CarriesEvent(codec: Codec, payload: bytes) {
    HasContent(payload) && Usable(codec.parse(Trim(payload)))
  }

  predicate Unusable(codec: Codec, payload: bytes) {
    HasContent(payload) && !Usable(codec.parse(Trim(payload)))
  }

  /** The typed events that the payloads carry. */
  function TypedEvents(codec: Codec, payloads: seq<bytes>): seq<Envelope> {
    if payloads == [] then []
    else
      var last := Last(payloads);
      TypedEvents(codec, Init(payloads))
      + (if CarriesEvent(codec, last) then [codec.parse(Trim(last)).envelope] else [])
  }

  /** The transformer reads exactly the event a payload carries, and rejects exactly the unusable. */
  lemma InterpretMeans(codec: Codec, payload: bytes)
    ensures match Interpret(codec, payload)
            case Empty => Blank(payload)
            case Sentinel => IsSentinel(payload)
            case Known(v) => CarriesEvent(codec, payload) && v == codec.parse(Trim(payload)).envelope
            case Invalid => Unusable(codec, payload)
  {
    TrimmedBlank(payload);
    hide Trim, Blank;
  }

  lemma TrimmedBlank(payload: bytes)
    ensures Blank(payload) <==> Trim(payload) == []
    ensures IsSentinel(payload) ==> !Blank(payload)
  {
  }

  lemma TypedOneMore(codec: Codec, front: seq<bytes>, payload: bytes)
    ensures TypedEvents(codec, front + [payload])
         == TypedEvents(codec, front)
            + (if CarriesEvent(codec, payload) then [codec.parse(Trim(payload)).envelope] else [])
  {
    hide CarriesEvent, Trim;
    Snoc(front, payload);
  }
}
