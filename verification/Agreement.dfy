/** The streaming and the buffered path give the same completion. */
module Agreement {
  import opened Sequences
  import opened SseFraming
  import opened SseReader
  import opened Chunks
  import opened Transformer
  import opened Aggregation
  import opened UpstreamPayloads
  import Relay
  import RelayGuarantees

  /** Blank, or a typed event that transforms and is not already a chat-completion chunk. */
  predicate Ordinary(codec: Codec, event: bytes) {
    Blank(event) || (CarriesEvent(codec, event) && !codec.parse(Trim(event)).isChunk)
  }

  /** Ordinary events, possibly closed by the sentinel. */
  predicate Orderly(codec: Codec, events: seq<bytes>) {
    events != [] ==>
      && (Ordinary(codec, Last(events)) || IsSentinel(Last(events)))
      && forall i :: 0 <= i < |events| - 1 ==> Ordinary(codec, events[i])
  }

  ghost predicate Survive(payloads: seq<bytes>) {
    forall i :: 0 <= i < |payloads| ==> StripCRs(payloads[i]) == payloads[i]
  }

  lemma PrintedSurvive(codec: Codec, chunks: seq<Chunk>)
    requires Faithful(codec)
    ensures Survive(Map(codec.printChunk, chunks))
  {
    forall i | 0 <= i < |chunks|
      ensures StripCRs(codec.printChunk(chunks[i])) == codec.printChunk(chunks[i])
    {
      RelayGuarantees.OneLineSurvives(codec.printChunk(chunks[i]));
    }
  }

  ghost predicate InStep(codec: Codec, r: Relay.Relayed, p: Progress) {
    && !p.failed && r.state == p.state
    && Survive(r.payloads) && p.fold == AddFrames(codec, NOTHING, r.payloads)
  }

  /** One event keeps the relay and the aggregator in step. */
  lemma EventInStep(codec: Codec, model: string, r: Relay.Relayed, p: Progress, event: bytes)
    requires Faithful(codec) && InStep(codec, r, p)
    requires Ordinary(codec, event) || IsSentinel(event)
    ensures var i := Interpret(codec, event);
            var a := Answer(codec, model, p.state, i);
            var s := Relay.Serve(codec, model, r, event);
            && InStep(codec, s, Progress(Next(p.state, i),
                                         if a.Emitted? then AddFrames(codec, p.fold, a.frames) else p.fold,
                                         a.Rejected?))
            && s.outcome == (if IsSentinel(event) then Some(Relay.Complete) else None)
  {
    InterpretMeans(codec, event);
    TrimmedBlank(event);
    hide Replies, Next, StripCRs, AddFrames, Trim, Interpret, Blank;
    var i := Interpret(codec, event);
    SentinelAddsNothing(codec, r.payloads);
    RelayGuarantees.DoneSurvives();
    if i.Known? {
      var frames := Map(codec.printChunk, Replies(model, p.state, i.envelope));
      PrintedSurvive(codec, Replies(model, p.state, i.envelope));
      AddFramesAppend(codec, NOTHING, r.payloads, frames);
    }
  }

  lemma SentinelAddsNothing(codec: Codec, payloads: seq<bytes>)
    requires Faithful(codec)
    ensures AddFrames(codec, NOTHING, payloads + [DONE]) == AddFrames(codec, NOTHING, payloads)
  {
    Snoc(payloads, DONE);
  }

  lemma OneMoreInStep(codec: Codec, model: string, front: seq<bytes>, event: bytes)
    requires Faithful(codec)
    requires InStep(codec, Relay.Run(codec, model, front), Consume(codec, model, front))
    requires Relay.Run(codec, model, front).outcome.None?
    requires Ordinary(codec, event) || IsSentinel(event)
    ensures InStep(codec, Relay.Run(codec, model, front + [event]), Consume(codec, model, front + [event]))
    ensures Relay.Run(codec, model, front + [event]).outcome
         == if IsSentinel(event) then Some(Relay.Complete) else None
  {
    hide *;
    EventInStep(codec, model, Relay.Run(codec, model, front), Consume(codec, model, front), event);
    NotFailed(codec, Relay.Run(codec, model, front), Consume(codec, model, front));
    ConsumeOneMore(codec, model, front, event);
    Relay.RunOneMore(codec, model, front, event);
  }

  lemma {:induction false} RunInStep(codec: Codec, model: string, events: seq<bytes>)
    requires Faithful(codec) && Orderly(codec, events)
    ensures InStep(codec, Relay.Run(codec, model, events), Consume(codec, model, events))
    ensures Relay.Run(codec, model, events).outcome
         == if events != [] && IsSentinel(Last(events)) then Some(Relay.Complete) else None
    decreases |events|
  {
    if events != [] {
      hide *;
      OrderlyFront(codec, events);
      RunInStep(codec, model, Init(events));
      OneMoreInStep(codec, model, Init(events), Last(events));
    }
  }

  lemma OrderlyFront(codec: Codec, events: seq<bytes>)
    requires Orderly(codec, events) && events != []
    ensures Orderly(codec, Init(events)) && events == Init(events) + [Last(events)]
    ensures Ordinary(codec, Last(events)) || IsSentinel(Last(events))
    ensures Init(events) != [] ==> !IsSentinel(Last(Init(events)))
  {
    hide Trim, Blank;
    if |events| >= 2 {
      TrimmedBlank(events[|events| - 2]);
      assert Ordinary(codec, events[|events| - 2]);
    }
  }

  lemma NotFailed(codec: Codec, r: Relay.Relayed, p: Progress)
    requires InStep(codec, r, p)
    ensures !p.failed
  {
  }

  /** For an orderly upstream that ended, decoding what the relay wrote (pings anywhere) and
      folding the frames gives the completion the buffered path returns. */
  lemma StreamingAgreesWithBuffered(codec: Codec, model: string, now: int, body: (bytes, End), items: seq<Written>)
    requires Faithful(codec) && body.1.Eof? && Orderly(codec, EventsUpTo(body.0, body.1))
    requires Sent(items) == Relay.Owed(codec, EffectiveModel(model), body).payloads
    ensures Buffered(codec, body, model, now)
         == Success(Complete(AddFrames(codec, NOTHING, Decode(Encode(items))), model, now))
  {
    hide Relay.Run, EventsUpTo, Decode, Encode, StripCRs, AddFrames, Complete, Consume, Orderly, Interpret, Faithful;
    var events := EventsUpTo(body.0, body.1);
    RunInStep(codec, EffectiveModel(model), events);
    var r := Relay.Run(codec, EffectiveModel(model), events);
    SentinelAddsNothing(codec, r.payloads);
    RelayGuarantees.DoneSurvives();
    SurvivorsReadBack(items);
  }

  lemma SurvivorsReadBack(items: seq<Written>)
    requires Survive(Sent(items))
    ensures Decode(Encode(items)) == Sent(items)
  {
    hide Decode, Encode, StripCRs;
    ReadBack(items);
  }
}
