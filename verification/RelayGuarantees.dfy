/** What a client can rely on: termination of the rewrite relay and independence of its output
    from the timer and from how the bytes were chopped up. */
module RelayGuarantees {
  import opened Sequences
  import opened SseFraming
  import opened SseReader
  import opened Chunks
  import opened Transformer
  import opened Outlet
  import opened Relay
  import opened RelayEvents
  import opened PingDeletion

  // ---- termination -----------------------------------------------------------

  /** The decoded output has exactly one sentinel, which is last, and before it the error frame
      when the relay returned an error: for the first upstream event that was given up on, or for the
      broken body. */
  ghost predicate WellEnded(codec: Codec, seen: seq<bytes>, events: seq<bytes>, outcome: Outcome) {
    && seen != [] && Last(seen) == DONE && DONE !in Init(seen)
    && (outcome == UpstreamError ==> |seen| >= 2 && seen[|seen| - 2] == codec.printError(UpstreamRead))
    && (outcome == TransformError ==>
          && |seen| >= 2 && FirstStop(codec, events).Some?
          && seen[|seen| - 2] == codec.printError(BadEvent(events[FirstStop(codec, events).value])))
  }

  lemma LineSurvives(p: bytes)
    requires LF !in p && p != [] && Last(p) != CR
    ensures StripCRs(p) == p
  {
    SplitWhole(p, IsLF);
    OnePart(p);
  }

  lemma OnePart(p: bytes)
    requires p != [] && Last(p) != CR
    ensures Join(Map(StripCR, [p]), LF) == p
  {
    assert Map(StripCR, [p]) == [p];
  }

  lemma OneLineSurvives(p: bytes)
    requires OneLine(p)
    ensures StripCRs(p) == p
  {
    if p == [] {
      assert Map(StripCR, [p]) == [p];
      SplitWhole(p, IsLF);
    } else {
      LineSurvives(p);
    }
  }

  lemma DoneSurvives()
    ensures StripCRs(DONE) == DONE
  {
    LineSurvives(DONE);
  }

  lemma OnlyTheSentinelReadsAsSentinel(p: bytes)
    requires p != DONE && (p != [] ==> Last(p) != CR)
    ensures StripCRs(p) != DONE
  {
    var parts := Split(p, IsLF);
    JoinOfSplit(p, LF, IsLF);
    if |parts| > 1 {
      var stripped := Map(StripCR, parts);
      assert LF in Join(stripped, LF);
    }
  }

  ghost predicate NoSentinel(payloads: seq<bytes>) {
    forall p :: p in payloads ==> StripCRs(p) != DONE
  }

  lemma PrintedChunksAreNoSentinel(codec: Codec, chunks: seq<Chunk>)
    requires Faithful(codec)
    ensures NoSentinel(Map(codec.printChunk, chunks))
  {
    var frames := Map(codec.printChunk, chunks);
    forall p | p in frames
      ensures StripCRs(p) != DONE
    {
      var i :| 0 <= i < |frames| && frames[i] == p;
      OneLineSurvives(codec.printChunk(chunks[i]));
    }
  }

  /** A payload passed through unchanged is no sentinel, and a blank one is no chunk. */
  lemma PassedThroughIsNoSentinel(codec: Codec, event: bytes)
    requires Faithful(codec)
    ensures !Interpret(codec, event).Sentinel? && SseFraming.Trim(event) != [] ==>
              StripCRs(SseFraming.Trim(event)) != DONE
    ensures Interpret(codec, event).Empty? ==> !IsChunk(codec.parse(SseFraming.Trim(event)))
    ensures Interpret(codec, event).Empty? <==> SseFraming.Trim(event) == []
  {
    hide StripCRs;
    var trimmed := SseFraming.Trim(event);
    if trimmed != [] && trimmed != DONE {
      OnlyTheSentinelReadsAsSentinel(trimmed);
    }
  }

  lemma AnswersAreNoSentinel(codec: Codec, model: string, s: State, i: Input)
    requires Faithful(codec)
    ensures var a := Answer(codec, model, s, i);
            && (a.Emitted? ==> NoSentinel(a.frames))
            && (a.Done? <==> i.Sentinel?) && (a.Rejected? <==> i.Invalid?)
  {
    hide Replies, NoSentinel;
    if i.Known? {
      PrintedChunksAreNoSentinel(codec, Replies(model, s, i.envelope));
    }
  }

  /** A relay still running has sent no sentinel; one that ended has sent it last, once. */
  ghost predicate EndsWell(s: Relayed) {
    if s.outcome.None? then NoSentinel(s.payloads)
    else
      && s.payloads != [] && Last(s.payloads) == DONE && NoSentinel(Init(s.payloads))
      && s.outcome.value in {Complete, TransformError}
  }

  lemma ServeKeepsSentinelOut(codec: Codec, model: string, r: Relayed, event: bytes)
    requires Faithful(codec) && NoSentinel(r.payloads)
    ensures EndsWell(Serve(codec, model, r, event))
  {
    hide Interpret, Answer, Next, StripCRs, SseFraming.Trim, IsChunk;
    PassedThroughIsNoSentinel(codec, event);
    AnswersAreNoSentinel(codec, model, r.state, Interpret(codec, event));
    OneLineSurvives(codec.printError(BadEvent(event)));
    Snoc(r.payloads, DONE);
    Snoc(r.payloads + [codec.printError(BadEvent(event))], DONE);
    var error := codec.printError(BadEvent(event));
    assert r.payloads + [error, DONE] == r.payloads + [error] + [DONE];
  }

  lemma ServeEndsWell(codec: Codec, model: string, r: Relayed, event: bytes)
    requires Faithful(codec) && r.outcome.None? && EndsWell(r)
    ensures EndsWell(Serve(codec, model, r, event))
  {
    hide Serve, NoSentinel, Faithful;
    ServeKeepsSentinelOut(codec, model, r, event);
  }

  lemma NothingEndsWell(codec: Codec, model: string)
    ensures EndsWell(Run(codec, model, []))
  {
  }

  lemma {:induction false} RunEndsWell(codec: Codec, model: string, events: seq<bytes>)
    requires Faithful(codec)
    ensures EndsWell(Run(codec, model, events))
    decreases |events|
  {
    if events == [] {
      NothingEndsWell(codec, model);
    } else {
      var front, event := Init(events), Last(events);
      assert events == front + [event] && |front| < |events|;
      hide *;
      RunEndsWell(codec, model, front);
      if Run(codec, model, front).outcome.None? {
        RunOneMore(codec, model, front, event);
        ServeEndsWell(codec, model, Run(codec, model, front), event);
      } else {
        RunStops(codec, model, front, [event]);
      }
    }
  }

  lemma OwedEndsWell(codec: Codec, model: string, body: (bytes, End))
    requires Faithful(codec)
    ensures var s := Owed(codec, model, body);
            s.outcome.Some? ==>
              && s.payloads != [] && Last(s.payloads) == DONE && NoSentinel(Init(s.payloads))
              && (s.outcome == Some(UpstreamError) ==>
                    |s.payloads| >= 2 && s.payloads[|s.payloads| - 2] == codec.printError(UpstreamRead))
              && s.outcome != Some(WriteError)
  {
    hide Run, EventsUpTo, StripCRs;
    var events := EventsUpTo(body.0, body.1);
    RunEndsWell(codec, model, events);
    var r := Run(codec, model, events);
    var error := codec.printError(UpstreamRead);
    OneLineSurvives(error);
    Snoc(r.payloads, DONE);
    Snoc(r.payloads + [error], DONE);
    assert r.payloads + [error, DONE] == r.payloads + [error] + [DONE];
  }

  /** Reading the payloads back keeps the sentinel last and alone. */
  lemma SentinelStaysLast(sent: seq<bytes>)
    requires sent != [] && Last(sent) == DONE && NoSentinel(Init(sent))
    ensures var seen := Map(StripCRs, sent); seen != [] && Last(seen) == DONE && DONE !in Init(seen)
  {
    hide StripCRs;
    DoneSurvives();
    var seen := Map(StripCRs, sent);
    forall k | 0 <= k < |seen| - 1
      ensures seen[k] != DONE
    {
      assert Init(sent)[k] in Init(sent);
    }
  }

  lemma ErrorFrameSurvives(codec: Codec, sent: seq<bytes>, f: Failure)
    requires Faithful(codec) && |sent| >= 2 && sent[|sent| - 2] == codec.printError(f)
    ensures var seen := Map(StripCRs, sent); |seen| >= 2 && seen[|seen| - 2] == codec.printError(f)
  {
    hide StripCRs;
    OneLineSurvives(codec.printError(f));
  }

  /** Guaranteed termination: whatever the upstream did and whenever pings were sent, the bytes
      of a finished relay decode to a stream that ends well. */
  lemma RewriteEndsWell(codec: Codec, model: string, body: (bytes, End), items: seq<Written>)
    requires Faithful(codec)
    requires Owed(codec, model, body).outcome.Some? && Sent(items) == Owed(codec, model, body).payloads
    ensures WellEnded(codec, Decode(Encode(items)), EventsUpTo(body.0, body.1), Owed(codec, model, body).outcome.value)
  {
    hide Owed, Decode, Encode, StripCRs, EventsUpTo, FirstStop, Fatal, Faithful, Map, NoSentinel;
    var owed := Owed(codec, model, body);
    OwedEndsWell(codec, model, body);
    ReadBack(items);
    SentinelStaysLast(owed.payloads);
    if owed.outcome == Some(UpstreamError) {
      ErrorFrameSurvives(codec, owed.payloads, UpstreamRead);
    }
    if owed.outcome == Some(TransformError) {
      var events := EventsUpTo(body.0, body.1);
      ErrorFrame(codec, model, body);
      ErrorFrameSurvives(codec, owed.payloads, BadEvent(events[FirstStop(codec, events).value]));
    }
  }

  // ---- keepalive ----------------------------------------------------------------

  /** Two finished relays of the same upstream, whatever the timers did and however the bytes
      were delivered, wrote the same bytes once the pings are deleted, with the same outcome. */
  lemma KeepaliveDoesNotInterfere(codec: Codec, model: string,
                                  a: seq<Arrival>, aRest: seq<Arrival>, aItems: seq<Written>,
                                  b: seq<Arrival>, bRest: seq<Arrival>, bItems: seq<Written>)
    requires Body(a + aRest) == Body(b + bRest)
    requires Owed(codec, model, Body(a)).outcome.Some? && Sent(aItems) == Owed(codec, model, Body(a)).payloads
    requires Owed(codec, model, Body(b)).outcome.Some? && Sent(bItems) == Owed(codec, model, Body(b)).payloads
    ensures Owed(codec, model, Body(a)).outcome == Owed(codec, model, Body(b)).outcome
    ensures DeletePings(Encode(aItems)) == DeletePings(Encode(bItems))
  {
    hide Owed, Body, Encode, DeletePings;
    OwedGrows(codec, model, a, aRest);
    OwedGrows(codec, model, b, bRest);
    DeletingPings(aItems);
    DeletingPings(bItems);
    WithoutPingsIsSent(aItems);
    WithoutPingsIsSent(bItems);
  }

  lemma {:induction false} NoPingsWithoutInterval(log: seq<Entry>, start: nat)
    requires PingsOnlyWhenIdle(log, start, 0)
    ensures WithoutPings(Items(log)) == Items(log)
  {
    if log != [] {
      NoPingsWithoutInterval(Init(log), start);
      Snoc(Items(Init(log)), Last(log).item);
    }
  }

  // ---- whole runs -----------------------------------------------------------------

  /** Run the relay task poll by poll until it returns or the schedule is over. */
  method RewriteSseStream(codec: Codec, model: string, interval: nat, capacity: Option<nat>, start: nat,
                          turns: seq<Turn>)
    returns (relay: RewriteRelay, ghost polls: nat)
    requires Faithful(codec) && Monotone(start, turns)
    ensures polls <= |turns| && relay.Valid() && relay.arrivals == Arrivals(turns[..polls])
    ensures relay.outcome.None? ==> polls == |turns|
    ensures forall k :: 0 <= k <= |turns| && Overdue(start, turns, k, |turns|, 0, relay.out.log) ==> relay.outcome.Some?
    ensures relay.out.broken <==> capacity.Some? && |Encode(Items(relay.out.log))| > capacity.value
    ensures relay.outcome == Some(WriteError) ==> relay.out.broken
    ensures var body := Body(Arrivals(turns[..polls]));
            var owed, events := Owed(codec, EffectiveModel(model), body), EventsUpTo(body.0, body.1);
            && relay.out.written <= Encode(Items(relay.out.log))
            && SentBy(relay.out.log) <= owed.payloads
            && (relay.outcome.Some? && !relay.out.broken ==>
                  && relay.out.written == Encode(Items(relay.out.log))
                  && SentBy(relay.out.log) == owed.payloads && relay.outcome == owed.outcome
                  && EndsAs(codec, events, body.1, relay.outcome)
                  && WellEnded(codec, Decode(relay.out.written), events, relay.outcome.value))
    ensures PingsOnlyWhenIdle(relay.out.log, start, interval)
  {
    hide Owed, Run, Decode, Encode, Body, EventsUpTo, WellEnded, EndsAs, PingsOnlyWhenIdle, Faithful, Overdue, InTime;
    hide SseEventReader.Valid, SSETransformer.Valid;
    relay := new RewriteRelay(codec, model, interval, capacity, start);
    polls := 0;
    assert turns[..0] == [];
    NothingIsOverdue(start, turns, relay.reader.Steps(), relay.out.log);
    for i := 0 to |turns|
      invariant polls == i && relay.Valid() && relay.arrivals == Arrivals(turns[..i])
      invariant fresh(relay) && fresh(relay.reader) && fresh(relay.transformer) && fresh(relay.out)
      invariant relay.outcome.None? && Monotone(relay.clock, turns[i..])
      invariant relay.transformer.codec == codec && relay.transformer.model == EffectiveModel(model)
      invariant relay.out.interval == interval && relay.out.start == start && relay.out.limit == capacity
      invariant InTime(start, turns, i, relay.reader.Steps(), relay.out.log)
    {
      assert Init(turns[..i + 1]) == turns[..i] && turns[i..][1..] == turns[i + 1..];
      ghost var left, log := relay.reader.Steps(), relay.out.log;
      relay.Step(turns[i]);
      polls := i + 1;
      if relay.outcome.Some? {
        break;
      }
      relay.reader.StepsAreBounded();
      StillInTime(start, turns, i, left, log, relay.reader.Steps(), relay.out.log);
    }
    if relay.outcome.None? {
      NoneOverdue(start, turns, polls, relay.reader.Steps(), relay.out.log);
    }
    relay.out.BrokenIffOverLimit();
    relay.reader.DeliveredIsPrefix();
    RunIsOwed(codec, relay.transformer.model, Body(relay.arrivals), relay.reader.delivered);
    if relay.outcome.Some? && !relay.out.broken {
      RewriteEndsWell(codec, relay.transformer.model, Body(relay.arrivals), Items(relay.out.log));
      OwedEndsAs(codec, relay.transformer.model, Body(relay.arrivals));
    }
  }

  // ---- chunks in, chunks out -------------------------------------------------------

  /** The event already is a chat-completion chunk, without a `type`. */
  predicate IsOpenAiEvent(codec: Codec, event: bytes) {
    && codec.parse(event) == Untyped(true) && codec.parse(SseFraming.Trim(event)) == Untyped(true)
    && SseFraming.Trim(event) != [] && SseFraming.Trim(event) != DONE
  }

  lemma ServeChunk(codec: Codec, model: string, r: Relayed, event: bytes)
    requires IsOpenAiEvent(codec, event)
    ensures Serve(codec, model, r, event) == Relayed(r.state, r.payloads + [SseFraming.Trim(event)], None)
  {
    hide SseFraming.Trim;
  }

  /** A stream that already consists of chat-completion chunks is relayed as it is, and does not
      disturb the transformer. */
  lemma {:induction false} OpenAiStreamIsUnchanged(codec: Codec, model: string, events: seq<bytes>)
    requires forall e :: e in events ==> IsOpenAiEvent(codec, e)
    ensures Run(codec, model, events) == Relayed(START, Map(SseFraming.Trim, events), None)
    decreases |events|
  {
    hide SseFraming.Trim, Run, Serve;
    if events == [] {
      RunNothing(codec, model);
    } else {
      assert events == Init(events) + [Last(events)];
      assert Last(events) in events && forall e :: e in Init(events) ==> e in events;
      OpenAiStreamIsUnchanged(codec, model, Init(events));
      RunOneMore(codec, model, Init(events), Last(events));
      ServeChunk(codec, model, Run(codec, model, Init(events)), Last(events));
    }
  }
}
