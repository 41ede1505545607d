/** The rewrite relay: one poll of its `select!` at a time, and the payloads it owes its client
    for a given upstream. */
module Relay {
  import opened Sequences
  import opened SseFraming
  import opened SseReader
  import opened Chunks
  import opened Transformer
  import opened Outlet

  // ---- what the client is owed -------------------------------------------------

  datatype Outcome = Complete | UpstreamError | TransformError | WriteError

  /** The relay after some events: the payloads written and how it ended, if it did. */
  datatype Relayed = Relayed(state: State, payloads: seq<bytes>, outcome: Option<Outcome>)

  predicate IsChunk(p: Parsed) {
    !p.NotJson? && p.isChunk
  }

  function Serve(codec: Codec, model: string, r: Relayed, event: bytes): Relayed {
    var i := Interpret(codec, event);
    var s := Next(r.state, i);
    match Answer(codec, model, r.state, i)
    case Done => Relayed(s, r.payloads + [DONE], Some(Complete))
    case Emitted(frames) => Relayed(s, r.payloads + frames, None)
    case Swallowed =>
      var trimmed := SseFraming.Trim(event);
      Relayed(s, if IsChunk(codec.parse(trimmed)) then r.payloads + [trimmed] else r.payloads, None)
    case Rejected =>
      var p := codec.parse(event);
      if p.Untyped? then
        Relayed(s, if p.isChunk then r.payloads + [SseFraming.Trim(event)] else r.payloads, None)
      else
        Relayed(s, r.payloads + [codec.printError(BadEvent(event)), DONE], Some(TransformError))
  }

  /** The events are served in order until one ends the relay. */
  function Run(codec: Codec, model: string, events: seq<bytes>): Relayed {
    if events == [] then Relayed(START, [], None)
    else
      var r := Run(codec, model, Init(events));
      if r.outcome.Some? then r else Serve(codec, model, r, Last(events))
  }

  /** The whole relay of a body that ended: the sentinel closes it in every case, after an
      error frame if the upstream failed. */
  function Final(codec: Codec, model: string, events: seq<bytes>, end: End): Relayed {
    var r := Run(codec, model, events);
    if r.outcome.Some? then r
    else
      match end
      case Open => r
      case Eof => Relayed(r.state, r.payloads + [DONE], Some(Complete))
      case Failed => Relayed(r.state, r.payloads + [codec.printError(UpstreamRead), DONE], Some(UpstreamError))
  }

  function Owed(codec: Codec, model: string, body: (bytes, End)): Relayed {
    Final(codec, model, EventsUpTo(body.0, body.1), body.1)
  }

  lemma ServeGrows(codec: Codec, model: string, r: Relayed, event: bytes)
    ensures r.payloads <= Serve(codec, model, r, event).payloads
  {
    hide Interpret, Answer, Next, Trim;
  }

  lemma {:induction false} RunStops(codec: Codec, model: string, a: seq<bytes>, b: seq<bytes>)
    ensures Run(codec, model, a).outcome.Some? ==> Run(codec, model, a + b) == Run(codec, model, a)
    ensures Run(codec, model, a).payloads <= Run(codec, model, a + b).payloads
    decreases |b|
  {
    hide Run;
    if b == [] {
      assert a + b == a;
    } else {
      var front, event := a + Init(b), Last(b);
      assert a + b == front + [event];
      RunStops(codec, model, a, Init(b));
      OneMoreStops(codec, model, front, event);
    }
  }

  lemma OneMoreStops(codec: Codec, model: string, events: seq<bytes>, event: bytes)
    ensures var r, s := Run(codec, model, events), Run(codec, model, events + [event]);
            && (r.outcome.Some? ==> s == r)
            && r.payloads <= s.payloads
  {
    hide Serve;
    Snoc(events, event);
    ServeGrows(codec, model, Run(codec, model, events), event);
  }

  lemma RunNothing(codec: Codec, model: string)
    ensures Run(codec, model, []) == Relayed(START, [], None)
  {
  }

  lemma RunOneMore(codec: Codec, model: string, events: seq<bytes>, event: bytes)
    requires Run(codec, model, events).outcome.None?
    ensures Run(codec, model, events + [event]) == Serve(codec, model, Run(codec, model, events), event)
  {
    Snoc(events, event);
  }

  /** Later arrivals never change what a finished relay wrote, and only extend what a running
      one has written. */
  lemma OwedGrows(codec: Codec, model: string, a: seq<Arrival>, b: seq<Arrival>)
    ensures var x, y := Owed(codec, model, Body(a)), Owed(codec, model, Body(a + b));
            && (x.outcome.Some? ==> x == y)
            && x.payloads <= y.payloads
  {
    hide Run, Body, EventsUpTo;
    EventsGrow(a, b);
    BodyGrows(a, b);
    var (xs, e) := Body(a);
    var (ys, f) := Body(a + b);
    var es, fs := EventsUpTo(xs, e), EventsUpTo(ys, f);
    RunStops(codec, model, es, fs[|es|..]);
    assert fs == es + fs[|es|..];
  }

  /** What was relayed for the events read so far is part of what is owed. */
  lemma RunIsOwed(codec: Codec, model: string, body: (bytes, End), events: seq<bytes>)
    requires events <= EventsUpTo(body.0, body.1)
    ensures Run(codec, model, events).payloads <= Owed(codec, model, body).payloads
    ensures Run(codec, model, events).outcome.Some? ==> Owed(codec, model, body) == Run(codec, model, events)
  {
    var all := EventsUpTo(body.0, body.1);
    assert all == events + all[|events|..];
    RunStops(codec, model, events, all[|events|..]);
  }

  lemma SentByAppend(log: seq<Entry>, e: Entry)
    ensures SentBy(log + [e]) == if e.item.PingComment? then SentBy(log) else SentBy(log) + [e.item.payload]
  {
    Snoc(log, e);
    Snoc(Items(log), e.item);
    assert Sent(Items(log)) + [] == Sent(Items(log));
  }

  // ---- the relay -----------------------------------------------------------------

  /** One poll of the relay task: what arrived since the last one, the clock when it runs and
      when it is done, and which `select!` branch is tried first. */
  datatype Turn = Turn(arrival: Arrival, now: nat, done: nat, timerFirst: bool)

  function Arrivals(turns: seq<Turn>): (r: seq<Arrival>)
    ensures |r| == |turns|
  {
    if turns == [] then [] else Arrivals(Init(turns)) + [Last(turns).arrival]
  }

  /** The clock never runs backwards. */
  predicate Monotone(clock: nat, turns: seq<Turn>)
    decreases |turns|
  {
    turns != [] ==> clock <= turns[0].now <= turns[0].done && Monotone(turns[0].done, turns[1..])
  }

  function ClockAfter(start: nat, turns: seq<Turn>): nat {
    if turns == [] then start else Last(turns).done
  }

  /** The upstream ended within the first `k` polls, and from then to poll `polls` there were more
      polls than its bytes leave room for, pings aside, with `left` still to come. */
  ghost predicate Overdue(start: nat, turns: seq<Turn>, k: nat, polls: nat, left: nat, log: seq<Entry>)
    requires k <= polls <= |turns|
  {
    var (body, end) := Body(Arrivals(turns[..k]));
    !end.Open? && polls - k + left > |body| + 2 + PingsSince(log, ClockAfter(start, turns[..k]))
  }

  ghost predicate InTime(start: nat, turns: seq<Turn>, polls: nat, left: nat, log: seq<Entry>)
    requires polls <= |turns|
  {
    forall k :: 0 <= k <= polls ==> !Overdue(start, turns, k, polls, left, log)
  }

  lemma NothingIsOverdue(start: nat, turns: seq<Turn>, left: nat, log: seq<Entry>)
    ensures InTime(start, turns, 0, left, log)
  {
    assert turns[..0] == [];
  }

  lemma NoneOverdue(start: nat, turns: seq<Turn>, polls: nat, left: nat, log: seq<Entry>)
    requires polls <= |turns| && InTime(start, turns, polls, left, log)
    ensures forall k :: 0 <= k <= polls ==> !Overdue(start, turns, k, polls, 0, log)
  {
    hide Body, Arrivals, PingsSince;
    forall k | 0 <= k <= polls
      ensures !Overdue(start, turns, k, polls, 0, log)
    {
      assert !Overdue(start, turns, k, polls, left, log);
    }
  }

  /** One more poll that brings the reader closer to its end, or writes a ping, is in time. */
  lemma StillInTime(start: nat, turns: seq<Turn>, i: nat, left: nat, log: seq<Entry>, newLeft: nat, newLog: seq<Entry>)
    requires i < |turns| && Monotone(start, turns) && InTime(start, turns, i, left, log) && log <= newLog
    requires var (body, end) := Body(Arrivals(turns[..i + 1]));
             !end.Open? ==>
               && newLeft <= |body| + 2
               && newLeft <= left
               && (newLeft < left || newLog == log + [Entry(PingComment, turns[i].now, turns[i].done)])
    ensures InTime(start, turns, i + 1, newLeft, newLog)
  {
    hide Body, Arrivals, PingsSince;
    var next := i + 1;
    forall k | 0 <= k <= i
      ensures !Overdue(start, turns, k, next, newLeft, newLog)
    {
      var time := ClockAfter(start, turns[..k]);
      assert !Overdue(start, turns, k, i, left, log);
      EndsOnce(turns, k, next);
      assert newLog == log + newLog[|log|..];
      PingsOnlyAdd(log, newLog[|log|..], time);
      ClockBefore(start, turns, k, i);
      OnePingMore(log, turns[i].now, turns[i].done, time);
    }
  }

  lemma OnePingMore(log: seq<Entry>, begun: nat, ended: nat, time: nat)
    requires time <= begun
    ensures PingsSince(log + [Entry(PingComment, begun, ended)], time) == PingsSince(log, time) + 1
  {
    Snoc(log, Entry(PingComment, begun, ended));
  }

  lemma {:induction false} ArrivalsAppend(a: seq<Turn>, b: seq<Turn>)
    ensures Arrivals(a + b) == Arrivals(a) + Arrivals(b)
  {
    if b == [] {
      assert a + b == a;
    } else {
      assert Init(a + b) == a + Init(b) && Last(a + b) == Last(b);
      ArrivalsAppend(a, Init(b));
    }
  }

  lemma EndsOnce(turns: seq<Turn>, j: nat, k: nat)
    requires j <= k <= |turns|
    ensures !Body(Arrivals(turns[..j])).1.Open? ==> Body(Arrivals(turns[..k])) == Body(Arrivals(turns[..j]))
  {
    assert turns[..k] == turns[..j] + turns[j..k];
    ArrivalsAppend(turns[..j], turns[j..k]);
    BodyGrows(Arrivals(turns[..j]), Arrivals(turns[j..k]));
  }

  lemma {:induction false} ClockBefore(start: nat, turns: seq<Turn>, k: nat, i: nat)
    requires Monotone(start, turns) && k <= i < |turns|
    ensures ClockAfter(start, turns[..k]) <= turns[i].now
    decreases i
  {
    if i == 0 {
      assert turns[..k] == [];
    } else {
      var rest := turns[1..];
      if k == 0 {
        ClockBefore(turns[0].done, rest, 0, i - 1);
        assert turns[..0] == [] && rest[..0] == [];
      } else {
        ClockBefore(turns[0].done, rest, k - 1, i - 1);
        assert turns[..k] == [turns[0]] + rest[..k - 1];
      }
    }
  }

  class RewriteRelay {
    const reader: SseEventReader
    const transformer: SSETransformer
    const out: Downstream
    var outcome: Option<Outcome>
    ghost var arrivals: seq<Arrival>
    ghost var clock: nat

    ghost predicate Valid()
      reads this, reader, transformer, out
    {
      && Parts()
      && (outcome.None? ==> Running(reader.delivered))
      && (outcome.Some? ==> Closed())
    }

    ghost predicate Parts()
      reads this, reader, transformer, out
    {
      && reader.Valid() && transformer.Valid() && out.Valid()
      && (reader.Arrived(), reader.end) == Body(arrivals)
      && out.lastWrite <= clock
    }

    /** `events` are served and the relay goes on. */
    ghost predicate Running(events: seq<bytes>)
      reads this, transformer, out
    {
      && !out.broken && out.Settled()
      && Run(transformer.codec, transformer.model, events) == Relayed(transformer.Abstraction(), SentBy(out.log), None)
    }

    /** A relay that ended wrote all it owed, or as much as the client took. */
    ghost predicate Closed()
      reads this, transformer, out
    {
      var owed := Owed(transformer.codec, transformer.model, Body(arrivals));
      if outcome == Some(WriteError) then out.broken && SentBy(out.log) <= owed.payloads
      else owed.outcome == outcome && SentBy(out.log) == owed.payloads
    }

    constructor (codec: Codec, model: string, interval: nat, capacity: Option<nat>, now: nat)
      ensures Valid() && outcome.None? && arrivals == [] && clock == now
      ensures fresh(reader) && fresh(transformer) && fresh(out)
      ensures transformer.codec == codec && transformer.model == EffectiveModel(model)
      ensures out.interval == interval && out.start == now && out.limit == capacity && out.log == []
    {
      reader := new SseEventReader();
      transformer := new SSETransformer(codec, model);
      out := new Downstream(interval, capacity, now);
      outcome, arrivals, clock := None, [], now;
    }

    /** The keepalive branch: drop the read in flight and write a ping. */
    method KeepAlive(t: Turn)
      requires Parts() && outcome.None? && Running(reader.delivered) && out.Due(t.now) && t.now <= t.done <= clock
      modifies this`outcome, reader`inFlight, out
      ensures Valid() && out.log == old(out.log) + [Entry(PingComment, t.now, t.done)]
      ensures reader.Steps() == old(reader.Steps())
    {
      hide Run, Owed, Body, EventsUpTo, SentBy, SseEventReader.Valid, Downstream.Valid;
      reader.DeliveredIsPrefix();
      RunIsOwed(transformer.codec, transformer.model, Body(arrivals), reader.delivered);
      SentByAppend(out.log, Entry(PingComment, t.now, t.done));
      reader.Drop();
      var ok := out.Ping(t.now, t.done);
      if ok {
        out.Touch(t.done);
      } else {
        outcome := Some(WriteError);
      }
    }

    /** The body ended without the sentinel: write it anyway. */
    method Close(t: Turn)
      requires Parts() && outcome.None? && Running(reader.delivered)
      requires reader.end.Eof? && reader.delivered == EventsUpTo(reader.Arrived(), reader.end)
      modifies this`outcome, out
      ensures Valid() && outcome.Some? && old(out.log) <= out.log
    {
      hide Run, Body, EventsUpTo, SentBy, SseEventReader.Valid, SSETransformer.Valid, Downstream.Valid;
      SentByAppend(out.log, Entry(EventFrame(DONE), t.now, t.done));
      var ok := out.WriteDataFrame(DONE, t.now, t.done);
      outcome := Some(if ok then Complete else WriteError);
    }

    /** Best-effort error frame and sentinel. */
    method TerminateWithError(f: Failure, why: Outcome, t: Turn)
      requires Parts() && outcome.None? && !out.broken && why != WriteError
      requires var owed := Owed(transformer.codec, transformer.model, Body(arrivals));
               && owed.outcome == Some(why)
               && owed.payloads == SentBy(out.log) + [transformer.codec.printError(f), DONE]
      modifies this`outcome, out
      ensures Valid() && outcome == Some(why) && old(out.log) <= out.log
    {
      hide Owed, Body, EventsUpTo, SentBy, SseEventReader.Valid, SSETransformer.Valid, Downstream.Valid;
      var message := transformer.codec.printError(f);
      SentByAppend(out.log, Entry(EventFrame(message), t.now, t.done));
      SentByAppend(out.log + [Entry(EventFrame(message), t.now, t.done)], Entry(EventFrame(DONE), t.now, t.done));
      assert SentBy(out.log) + [message] + [DONE] == SentBy(out.log) + [message, DONE];
      var _ := out.WriteDataFrame(message, t.now, t.done);
      var _ := out.WriteDataFrame(DONE, t.now, t.done);
      outcome := Some(why);
    }

    /** Write frames until the client is gone. */
    method WriteFrames(frames: seq<bytes>, t: Turn) returns (ok: bool)
      requires out.Valid() && !out.broken
      modifies out`written, out`capacity, out`broken, out`log
      ensures out.Valid() && ok == !out.broken && old(out.log) <= out.log
      ensures SentBy(out.log) <= SentBy(old(out.log)) + frames
      ensures ok ==> SentBy(out.log) == SentBy(old(out.log)) + frames
      ensures if frames == [] then out.log == old(out.log) else LastEnd(out.log, out.start) == t.done
    {
      hide SentBy, Downstream.Valid;
      ok := true;
      assert SentBy(out.log) + frames[..0] == SentBy(out.log);
      for i := 0 to |frames|
        invariant ok && out.Valid() && !out.broken && old(out.log) <= out.log
        invariant SentBy(out.log) == SentBy(old(out.log)) + frames[..i]
        invariant if i == 0 then out.log == old(out.log) else LastEnd(out.log, out.start) == t.done
      {
        SentByAppend(out.log, Entry(EventFrame(frames[i]), t.now, t.done));
        assert frames[..i + 1] == frames[..i] + [frames[i]];
        assert frames == frames[..i + 1] + frames[i + 1..];
        ok := out.WriteDataFrame(frames[i], t.now, t.done);
        if !ok { return; }
      }
      assert frames[..|frames|] == frames;
    }

    /** Serve one event by writing `frames`; an end of the relay is recorded, and so is a
        client that went away. */
    method Reply(ghost events: seq<bytes>, frames: seq<bytes>, end: Option<Outcome>, t: Turn)
      requires Parts() && outcome.None? && !out.broken && out.Settled() && t.now <= t.done <= clock
      requires reader.delivered == events && end != Some(WriteError)
      requires Run(transformer.codec, transformer.model, events)
            == Relayed(transformer.Abstraction(), SentBy(out.log) + frames, end)
      modifies this`outcome, out
      ensures Valid() && old(out.log) <= out.log
    {
      hide Run, Owed, Body, EventsUpTo, SentBy, SseEventReader.Valid, Downstream.Valid;
      reader.DeliveredIsPrefix();
      RunIsOwed(transformer.codec, transformer.model, Body(arrivals), events);
      var ok := WriteFrames(frames, t);
      if !ok {
        outcome := Some(WriteError);
      } else {
        outcome := end;
        if frames != [] {
          out.Touch(t.done);
        }
      }
    }

    method Handle(ghost before: seq<bytes>, event: bytes, t: Turn)
      requires Parts() && outcome.None? && Running(before) && reader.delivered == before + [event]
      requires t.now <= t.done <= clock
      modifies this`outcome, transformer, out
      ensures Valid() && old(out.log) <= out.log
    {
      hide Run, Owed, Body, EventsUpTo, SentBy, Interpret, Answer, Next;
      hide SseEventReader.Valid, SSETransformer.Valid, Downstream.Valid;
      var codec, trimmed := transformer.codec, SseFraming.Trim(event);
      RunOneMore(codec, transformer.model, before, event);
      ghost var was := SentBy(out.log);
      assert was + [] == was;
      var result := transformer.Transform(event);
      match result {
        case Done => Reply(reader.delivered, [DONE], Some(Complete), t);
        case Emitted(frames) => Reply(reader.delivered, frames, None, t);
        case Swallowed =>
          Reply(reader.delivered, if IsChunk(codec.parse(trimmed)) then [trimmed] else [], None, t);
        case Rejected =>
          var parsed := codec.parse(event);
          if parsed.Untyped? {
            Reply(reader.delivered, if parsed.isChunk then [trimmed] else [], None, t);
          } else {
            reader.DeliveredIsPrefix();
            RunIsOwed(codec, transformer.model, Body(arrivals), reader.delivered);
            TerminateWithError(BadEvent(event), TransformError, t);
          }
      }
    }

    method Step(t: Turn)
      requires Valid() && outcome.None? && clock <= t.now <= t.done
      modifies this, reader, transformer, out
      ensures Valid() && arrivals == old(arrivals) + [t.arrival] && clock == t.done && old(out.log) <= out.log
      ensures old(out.IdleAt(t.now)) && (t.timerFirst || (t.arrival.Nothing? && old(reader.Silent()))) ==>
                out.log == old(out.log) + [Entry(PingComment, t.now, t.done)]
      ensures !reader.end.Open? ==> reader.Steps() <= old(reader.Steps())
      ensures !reader.end.Open? && !(t.timerFirst && old(out.IdleAt(t.now))) ==>
                outcome.Some? || reader.Steps() < old(reader.Steps())
      ensures !(t.timerFirst && old(out.IdleAt(t.now))) ==>
                outcome.Some? || |reader.delivered| > old(|reader.delivered|)
                || reader.delivered == EventsUpTo(reader.Arrived(), reader.end)
    {
      hide Run, Owed, Body, EventsUpTo, SentBy, SseEventReader.Valid, Downstream.Valid;
      reader.Receive(t.arrival, arrivals);
      arrivals, clock := arrivals + [t.arrival], t.done;
      var due := out.Due(t.now);
      if t.timerFirst && due {
        KeepAlive(t);
        return;
      }
      ghost var before := reader.delivered;
      var poll := reader.NextEvent();
      match poll {
        case NotReady =>
          if due {
            KeepAlive(t);
          }
        case Finished => Close(t);
        case ReadError =>
          OwedAfterReadError(transformer.codec, transformer.model, Body(arrivals), reader.delivered);
          TerminateWithError(UpstreamRead, UpstreamError, t);
        case Ready(event) => Handle(before, event, t);
      }
    }
  }

  lemma OwedAfterReadError(codec: Codec, model: string, body: (bytes, End), events: seq<bytes>)
    requires body.1.Failed? && events == EventsUpTo(body.0, body.1) && Run(codec, model, events).outcome.None?
    ensures var owed := Owed(codec, model, body);
            && owed.outcome == Some(UpstreamError)
            && owed.payloads == Run(codec, model, events).payloads + [codec.printError(UpstreamRead), DONE]
  {
  }
}
