/** What the rewrite relay makes of each upstream event, and which event ends it. */
module RelayEvents {
  import opened Sequences
  import opened SseFraming
  import opened SseReader
  import opened Chunks
  import opened Transformer
  import opened UpstreamPayloads
  import opened Relay

  /** An event the relay gives up on: an unusable one, unless it is a JSON value without a type. */
  predicate Fatal(codec: Codec, event: bytes) {
    Unusable(codec, event) && !codec.parse(event).Untyped?
  }

  predicate Stops(codec: Codec, event: bytes) {
    IsSentinel(event) || Fatal(codec, event)
  }

  /** The first event that stops the relay. */
  function FirstStop(codec: Codec, events: seq<bytes>): (r: Option<nat>)
    ensures r.Some? ==> r.value < |events|
  {
    if events == [] then None
    else
      var front := FirstStop(codec, Init(events));
      if front.None? && Stops(codec, Last(events)) then Some(|events| - 1) else front
  }

  lemma {:induction false} FirstStopIsFirst(codec: Codec, events: seq<bytes>)
    ensures var stop := FirstStop(codec, events);
            && (stop.Some? ==> Stops(codec, events[stop.value]))
            && forall j :: 0 <= j < stop.GetOr(|events|) ==> !Stops(codec, events[j])
    decreases |events|
  {
    hide Stops;
    if events != [] {
      FirstStopIsFirst(codec, Init(events));
    }
  }

  /** The outcome by the events of the body alone: the first sentinel or fatal event decides it, and
      without one the way the body ended. */
  predicate EndsAs(codec: Codec, events: seq<bytes>, end: End, outcome: Option<Outcome>) {
    match FirstStop(codec, events)
    case Some(i) => outcome == Some(if Fatal(codec, events[i]) then TransformError else Complete)
    case None =>
      match end
      case Open => outcome == None
      case Eof => outcome == Some(Complete)
      case Failed => outcome == Some(UpstreamError)
  }

  // ---- one event -----------------------------------------------------------------

  /** The frames for a typed event are those of the table; one that says nothing is relayed itself if
      it already is a chunk. */
  ghost predicate RelaysTyped(codec: Codec, model: string, r: Relayed, event: bytes, s: Relayed) {
    var parsed := codec.parse(Trim(event));
    exists a :: parsed.Typed? && ObeysEvent(codec, model, r.state, parsed.envelope, a, s.state)
                && s.outcome.None?
                && s.payloads == r.payloads + if a.Emitted? then a.frames
                                              else if parsed.isChunk then [Trim(event)] else []
  }

  /** Every kind of event: the sentinel and fatal ones end the relay, a value without a type is
      relayed if it is a chunk and dropped if not, a blank is dropped, and a typed event is answered. */
  ghost predicate IsRelayed(codec: Codec, model: string, r: Relayed, event: bytes, s: Relayed) {
    && (IsSentinel(event) ==> s == Relayed(r.state, r.payloads + [DONE], Some(Complete)))
    && (Fatal(codec, event) ==>
          s == Relayed(r.state, r.payloads + [codec.printError(BadEvent(event)), DONE], Some(TransformError)))
    && (Unusable(codec, event) && !Fatal(codec, event) ==>
          s == Relayed(r.state, r.payloads + if codec.parse(event).isChunk then [Trim(event)] else [], None))
    && (Blank(event) ==> s == Relayed(r.state, r.payloads, None))
    && (CarriesEvent(codec, event) ==> RelaysTyped(codec, model, r, event, s))
  }

  lemma EventIsRelayed(codec: Codec, model: string, r: Relayed, event: bytes)
    requires Faithful(codec) && DistinctItems(r.state.tools)
    ensures IsRelayed(codec, model, r, event, Serve(codec, model, r, event))
  {
    InterpretMeans(codec, event);
    TrimmedBlank(event);
    hide Blank, Trim, Interpret, Next, Answer, ObeysEvent;
    Unanswered(codec, model, r.state, Interpret(codec, event));
    assert r.payloads + [] == r.payloads;
    if CarriesEvent(codec, event) {
      TypedIsAnswered(codec, model, r.state, event);
    }
  }

  lemma Unanswered(codec: Codec, model: string, s: State, i: Input)
    ensures i.Sentinel? ==> Answer(codec, model, s, i).Done? && Next(s, i) == s
    ensures i.Invalid? ==> Answer(codec, model, s, i).Rejected? && Next(s, i) == s
    ensures i.Empty? ==> Answer(codec, model, s, i).Swallowed? && Next(s, i) == s
  {
  }

  lemma TypedIsAnswered(codec: Codec, model: string, s: State, event: bytes)
    requires CarriesEvent(codec, event) && DistinctItems(s.tools)
    ensures var i, v := Interpret(codec, event), codec.parse(Trim(event)).envelope;
            && ObeysEvent(codec, model, s, v, Answer(codec, model, s, i), Next(s, i))
            && (Answer(codec, model, s, i).Emitted? || Answer(codec, model, s, i).Swallowed?)
  {
    AnswerObeys(codec, model, s, event);
    InterpretMeans(codec, event);
    TrimmedBlank(event);
    hide Blank, Trim, Interpret, Next, ObeysEvent;
    KnownIsAnswered(codec, model, s, Interpret(codec, event));
  }

  lemma KnownIsAnswered(codec: Codec, model: string, s: State, i: Input)
    requires i.Known?
    ensures Answer(codec, model, s, i).Emitted? || Answer(codec, model, s, i).Swallowed?
  {
  }

  /** An event ends the relay exactly when it is a sentinel or fatal. */
  lemma StopsIffEnded(codec: Codec, model: string, r: Relayed, event: bytes)
    requires r.outcome.None?
    ensures var s := Serve(codec, model, r, event);
            && (s.outcome == Some(Complete) <==> IsSentinel(event))
            && (s.outcome == Some(TransformError) <==> Fatal(codec, event))
            && (s.outcome.None? <==> !Stops(codec, event))
            && (Fatal(codec, event) ==> s.payloads == r.payloads + [codec.printError(BadEvent(event)), DONE])
            && (IsSentinel(event) ==> s.payloads == r.payloads + [DONE])
  {
    InterpretMeans(codec, event);
    TrimmedBlank(event);
    hide Blank, Trim, Interpret, Next;
    Unanswered(codec, model, r.state, Interpret(codec, event));
    if Interpret(codec, event).Known? {
      KnownIsAnswered(codec, model, r.state, Interpret(codec, event));
    }
  }

  // ---- a whole run ---------------------------------------------------------------

  lemma NextKeepsDistinct(s: State, i: Input)
    requires DistinctItems(s.tools)
    ensures DistinctItems(Next(s, i).tools)
  {
    hide Position, Announce, Speaks;
    if i.Known? && Announcement(i.envelope.event).Some? {
      AnnouncePosition(s.tools, Announcement(i.envelope.event).value);
    }
  }

  lemma ServeState(codec: Codec, model: string, r: Relayed, event: bytes)
    ensures Serve(codec, model, r, event).state == Next(r.state, Interpret(codec, event))
  {
    hide Interpret, Answer, Next, Trim;
  }

  lemma {:induction false} RunKeepsDistinct(codec: Codec, model: string, events: seq<bytes>)
    ensures DistinctItems(Run(codec, model, events).state.tools)
    decreases |events|
  {
    if events != [] {
      hide Serve, Next, DistinctItems;
      RunKeepsDistinct(codec, model, Init(events));
      ServeState(codec, model, Run(codec, model, Init(events)), Last(events));
      NextKeepsDistinct(Run(codec, model, Init(events)).state, Interpret(codec, Last(events)));
    }
  }

  /** In every run, the next event is relayed as the table says. */
  lemma RunRelaysNext(codec: Codec, model: string, events: seq<bytes>, event: bytes)
    requires Faithful(codec) && FirstStop(codec, events).None?
    ensures IsRelayed(codec, model, Run(codec, model, events), event, Run(codec, model, events + [event]))
  {
    hide Run, Serve, IsRelayed, FirstStop, Faithful, DistinctItems;
    RunEndsAtFirstStop(codec, model, events);
    RunKeepsDistinct(codec, model, events);
    RunOneMore(codec, model, events, event);
    EventIsRelayed(codec, model, Run(codec, model, events), event);
  }

  /** The relay runs on until the first event that stops it, and that one is the last it serves. */
  lemma {:induction false} RunEndsAtFirstStop(codec: Codec, model: string, events: seq<bytes>)
    ensures var r, stop := Run(codec, model, events), FirstStop(codec, events);
            && (r.outcome.None? <==> stop.None?)
            && (stop.Some? ==>
                  && Run(codec, model, events[..stop.value]).outcome.None?
                  && r == Serve(codec, model, Run(codec, model, events[..stop.value]), events[stop.value]))
    decreases |events|
  {
    hide Run, Serve, Stops;
    if events == [] {
      RunNothing(codec, model);
    } else {
      var front, event := Init(events), Last(events);
      assert events == front + [event] && |front| < |events|;
      RunEndsAtFirstStop(codec, model, front);
      if FirstStop(codec, front).None? {
        RunOneMore(codec, model, front, event);
        StopsIffEnded(codec, model, Run(codec, model, front), event);
        assert events[..|front|] == front;
      } else {
        RunStops(codec, model, front, [event]);
        var i := FirstStop(codec, front).value;
        assert events[..i] == front[..i];
      }
    }
  }

  /** The whole outcome table: how the relay ends and with which frames, the error frame being for the
      event that was given up on. */
  lemma OwedEndsAs(codec: Codec, model: string, body: (bytes, End))
    ensures var events, s := EventsUpTo(body.0, body.1), Owed(codec, model, body);
            && EndsAs(codec, events, body.1, s.outcome)
            && match FirstStop(codec, events)
               case Some(i) =>
                 s.payloads == Run(codec, model, events[..i]).payloads
                               + if Fatal(codec, events[i]) then [codec.printError(BadEvent(events[i])), DONE]
                                 else [DONE]
               case None =>
                 s.payloads == Run(codec, model, events).payloads
                               + if body.1.Open? then [] else if body.1.Eof? then [DONE]
                                 else [codec.printError(UpstreamRead), DONE]
  {
    hide Run, Serve, EventsUpTo, FirstStop, Fatal, IsSentinel;
    var events := EventsUpTo(body.0, body.1);
    RunEndsAtFirstStop(codec, model, events);
    if FirstStop(codec, events).Some? {
      FirstStopIsFirst(codec, events);
      var i := FirstStop(codec, events).value;
      StopsIffEnded(codec, model, Run(codec, model, events[..i]), events[i]);
    }
  }

  /** The next to last frame of a relay that gave up on an event. */
  lemma ErrorFrame(codec: Codec, model: string, body: (bytes, End))
    requires Owed(codec, model, body).outcome == Some(TransformError)
    ensures var events, payloads := EventsUpTo(body.0, body.1), Owed(codec, model, body).payloads;
            && FirstStop(codec, events).Some? && |payloads| >= 2
            && payloads[|payloads| - 2] == codec.printError(BadEvent(events[FirstStop(codec, events).value]))
  {
    hide Run, Owed, EventsUpTo, FirstStop, Stops, Fatal;
    OwedEndsAs(codec, model, body);
    var events := EventsUpTo(body.0, body.1);
    if FirstStop(codec, events).Some? {
      FirstStopIsFirst(codec, events);
    }
  }
}
