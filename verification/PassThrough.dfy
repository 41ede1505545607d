/** The pass-through relay for Responses streams: no transformation, no injected frames. */
module PassThrough {
  import opened Sequences
  import opened SseFraming
  import opened SseReader
  import opened UpstreamPayloads
  import opened Outlet
  import opened Relay

  /** What one upstream event becomes: a padded sentinel is normalised, an empty payload dropped. */
  function Passed(event: bytes): seq<bytes> {
    if Trim(event) == DONE then [DONE] else if event == [] then [] else [event]
  }

  function PassAll(events: seq<bytes>): seq<bytes> {
    if events == [] then [] else PassAll(Init(events)) + Passed(Last(events))
  }

  lemma PassOneMore(events: seq<bytes>, event: bytes)
    ensures PassAll(events + [event]) == PassAll(events) + Passed(event)
  {
    Snoc(events, event);
  }

  lemma PassedSoFar(body: (bytes, End), events: seq<bytes>)
    requires events <= EventsUpTo(body.0, body.1)
    ensures PassAll(events) <= PassAll(EventsUpTo(body.0, body.1))
  {
    var all := EventsUpTo(body.0, body.1);
    assert all == events + all[|events|..];
    PassAllAppend(events, all[|events|..]);
  }

  // ---- what is passed on ------------------------------------------------------------

  /** `out` is, in order, every event at the positions `at`, which are those of the events that are
      not empty; a sentinel is written without its padding. */
  ghost predicate ForwardsAt(events: seq<bytes>, at: seq<nat>, out: seq<bytes>) {
    && |at| == |out|
    && (forall k :: 0 <= k < |at| ==> at[k] < |events|)
    && (forall j, k :: 0 <= j < k < |at| ==> at[j] < at[k])
    && (forall i :: 0 <= i < |events| ==> (i in at <==> events[i] != []))
    && (forall k :: 0 <= k < |out| ==> out[k] == if IsSentinel(events[at[k]]) then DONE else events[at[k]])
  }

  ghost predicate Forwards(events: seq<bytes>, out: seq<bytes>) {
    exists at :: ForwardsAt(events, at, out)
  }

  /** Every event with a payload is passed on once and in order, and nothing else is. */
  lemma {:induction false} PassAllForwards(events: seq<bytes>)
    ensures Forwards(events, PassAll(events))
  {
    hide PassAll, ForwardsAt;
    if events == [] {
      NothingForwards();
    } else {
      var front, event := Init(events), Last(events);
      assert events == front + [event];
      PassAllForwards(front);
      var at :| ForwardsAt(front, at, PassAll(front));
      ForwardsOneMore(front, at, event);
    }
  }

  lemma NothingForwards()
    ensures Forwards([], PassAll([]))
  {
    assert ForwardsAt([], [], PassAll([]));
  }

  lemma ForwardsOneMore(front: seq<bytes>, at: seq<nat>, event: bytes)
    requires ForwardsAt(front, at, PassAll(front))
    ensures Forwards(front + [event], PassAll(front + [event]))
  {
    hide PassAll, Trim;
    PassOneMore(front, event);
    TrimmedBlank(event);
    var events := front + [event];
    var more := if event == [] then [] else [|front| as nat];
    assert forall i :: 0 <= i < |front| ==> events[i] == front[i];
    assert forall i :: i in at + more <==> i in at || i in more;
    assert ForwardsAt(events, at + more, PassAll(events));
  }

  /** Events without blanks and sentinels are passed on as they are. */
  lemma {:induction false} PassAllKeeps(events: seq<bytes>)
    requires forall e :: e in events ==> e != [] && !IsSentinel(e)
    ensures PassAll(events) == events
  {
    if events != [] {
      assert Last(events) in events && events == Init(events) + [Last(events)];
      assert forall e :: e in Init(events) ==> e in events;
      PassAllKeeps(Init(events));
    }
  }

  lemma {:induction false} PassAllAppend(a: seq<bytes>, b: seq<bytes>)
    ensures PassAll(a + b) == PassAll(a) + PassAll(b)
    decreases |b|
  {
    hide Passed;
    if b == [] {
      assert a + b == a && PassAll(b) == [];
    } else {
      hide PassAll;
      var front, event := Init(b), Last(b);
      PassAllAppend(a, front);
      assert b == front + [event];
      Associative(a, front, [event]);
      PassOneMore(a + front, event);
      PassOneMore(front, event);
      Associative(PassAll(a), PassAll(front), Passed(event));
    }
  }

  /** An event with an empty payload leaves no trace, and a padded sentinel becomes one sentinel at
      its place. */
  lemma OneEventPassed(a: seq<bytes>, event: bytes, b: seq<bytes>)
    ensures event == [] ==> PassAll(a + [event] + b) == PassAll(a + b)
    ensures IsSentinel(event) ==> PassAll(a + [event] + b) == PassAll(a) + [DONE] + PassAll(b)
    ensures event != [] && !IsSentinel(event) ==> PassAll(a + [event] + b) == PassAll(a) + [event] + PassAll(b)
  {
    TrimmedBlank(event);
    hide PassAll, Trim;
    PassAllAppend(a + [event], b);
    PassAllAppend(a, b);
    PassOneMore(a, event);
  }

  class PassThroughRelay {
    const reader: SseEventReader
    const out: Downstream
    var outcome: Option<Outcome>
    ghost var arrivals: seq<Arrival>
    ghost var clock: nat

    ghost predicate Parts()
      reads this, reader, out
    {
      && reader.Valid() && out.Valid()
      && (reader.Arrived(), reader.end) == Body(arrivals)
      && out.lastWrite <= clock
    }

    ghost predicate Valid()
      reads this, reader, out
    {
      && Parts()
      && (outcome.None? ==> !out.broken && out.Settled() && SentBy(out.log) == PassAll(reader.delivered))
      && (outcome.Some? ==>
            var owed := PassAll(EventsUpTo(reader.Arrived(), reader.end));
            if outcome == Some(WriteError) then out.broken && SentBy(out.log) <= owed
            else
              && !out.broken && SentBy(out.log) == owed
              && !reader.end.Open? && outcome == Some(if reader.end.Eof? then Complete else UpstreamError))
    }

    constructor (interval: nat, capacity: Option<nat>, now: nat)
      ensures Valid() && outcome.None? && arrivals == [] && clock == now
      ensures fresh(reader) && fresh(out) && out.interval == interval && out.start == now && out.limit == capacity
    {
      reader := new SseEventReader();
      out := new Downstream(interval, capacity, now);
      outcome, arrivals, clock := None, [], now;
    }

    method KeepAlive(t: Turn)
      requires Valid() && outcome.None? && out.Due(t.now) && t.now <= t.done <= clock
      modifies this`outcome, reader`inFlight, out
      ensures Valid() && out.log == old(out.log) + [Entry(PingComment, t.now, t.done)]
      ensures reader.Steps() == old(reader.Steps())
    {
      hide Body, EventsUpTo, SentBy, PassAll, Trim, SseEventReader.Valid, Downstream.Valid;
      reader.DeliveredIsPrefix();
      PassedSoFar((reader.Arrived(), reader.end), reader.delivered);
      SentByAppend(out.log, Entry(PingComment, t.now, t.done));
      reader.Drop();
      var ok := out.Ping(t.now, t.done);
      if ok {
        out.Touch(t.done);
      } else {
        outcome := Some(WriteError);
      }
    }

    /** Relay one event: write its payload, unless that is empty. */
    method Handle(ghost before: seq<bytes>, event: bytes, t: Turn)
      requires Parts() && outcome.None? && !out.broken && out.Settled() && t.now <= t.done <= clock
      requires reader.delivered == before + [event] && SentBy(out.log) == PassAll(before)
      modifies this`outcome, out
      ensures Valid() && old(out.log) <= out.log
    {
      hide Body, EventsUpTo, SentBy, PassAll, Trim, SseEventReader.Valid, Downstream.Valid;
      reader.DeliveredIsPrefix();
      PassedSoFar((reader.Arrived(), reader.end), reader.delivered);
      PassOneMore(before, event);
      var payload := if Trim(event) == DONE then DONE else event;
      if payload == [] {
        assert PassAll(before) + [] == PassAll(before);
        return;
      }
      SentByAppend(out.log, Entry(EventFrame(payload), t.now, t.done));
      var ok := out.WriteDataFrame(payload, t.now, t.done);
      if ok {
        out.Touch(t.done);
      } else {
        outcome := Some(WriteError);
      }
    }

    method Step(t: Turn)
      requires Valid() && outcome.None? && clock <= t.now <= t.done
      modifies this, reader, out
      ensures Valid() && arrivals == old(arrivals) + [t.arrival] && clock == t.done && old(out.log) <= out.log
      ensures old(out.IdleAt(t.now)) && (t.timerFirst || (t.arrival.Nothing? && old(reader.Silent()))) ==>
                out.log == old(out.log) + [Entry(PingComment, t.now, t.done)]
      ensures !reader.end.Open? ==> reader.Steps() <= old(reader.Steps())
      ensures !reader.end.Open? && !(t.timerFirst && old(out.IdleAt(t.now))) ==>
                outcome.Some? || reader.Steps() < old(reader.Steps())
      ensures !(t.timerFirst && old(out.IdleAt(t.now))) ==>
                outcome.Some? || |reader.delivered| > old(|reader.delivered|)
                || reader.delivered == EventsUpTo(reader.Arrived(), reader.end)
    {
      hide Body, EventsUpTo, SentBy, PassAll, SseEventReader.Valid, Downstream.Valid;
      reader.Receive(t.arrival, arrivals);
      arrivals, clock := arrivals + [t.arrival], t.done;
      var due := out.Due(t.now);
      if t.timerFirst && due {
        KeepAlive(t);
        return;
      }
      ghost var before := reader.delivered;
      var poll := reader.NextEvent();
      match poll {
        case NotReady =>
          if due {
            KeepAlive(t);
          }
        case Finished => outcome := Some(Complete);
        case ReadError => outcome := Some(UpstreamError);
        case Ready(event) => Handle(before, event, t);
      }
    }
  }

  /** The decoded downstream is the relayed event list, each line short of one trailing CR: nothing
      else is injected, nothing is lost. It is that list exactly when no line ends in CR. */
  lemma PassThroughPreserves(items: seq<Written>, events: seq<bytes>)
    requires Sent(items) == PassAll(events)
    ensures Forwards(events, PassAll(events))
    ensures Decode(Encode(items)) == Map(StripCRs, PassAll(events))
    ensures Decode(Encode(items)) == PassAll(events)
       <==> forall i :: 0 <= i < |PassAll(events)| ==> NoLineEndsInCR(PassAll(events)[i])
  {
    hide Decode, Encode, StripCRs, NoLineEndsInCR;
    PassAllForwards(events);
    ReadBack(items);
    RoundTrip(items);
  }

  /** After a read error the relayed events are a prefix of those of any longer body. */
  lemma ErrorRelaysAPrefix(bs: bytes, more: bytes)
    ensures PassAll(EventsUpTo(bs, Failed)) <= PassAll(EventsUpTo(bs + more, Eof))
  {
    ReceivedGrows(bs, more);
    PassedSoFar((bs + more, Eof), Received(bs));
  }

  method PassThroughSseStream(interval: nat, capacity: Option<nat>, start: nat, turns: seq<Turn>)
    returns (relay: PassThroughRelay, ghost polls: nat)
    requires Monotone(start, turns)
    ensures polls <= |turns| && relay.Valid() && relay.arrivals == Arrivals(turns[..polls])
    ensures relay.outcome.None? ==> polls == |turns|
    ensures forall k :: 0 <= k <= |turns| && Overdue(start, turns, k, |turns|, 0, relay.out.log) ==> relay.outcome.Some?
    ensures relay.out.broken <==> capacity.Some? && |Encode(Items(relay.out.log))| > capacity.value
    ensures relay.outcome == Some(WriteError) <==> relay.out.broken
    ensures var (body, end) := Body(Arrivals(turns[..polls]));
            var events := EventsUpTo(body, end);
            && relay.out.written <= Encode(Items(relay.out.log))
            && Forwards(events, PassAll(events)) && SentBy(relay.out.log) <= PassAll(events)
            && (relay.outcome.Some? && relay.outcome != Some(WriteError) ==>
                  && !end.Open? && relay.outcome == Some(if end.Eof? then Complete else UpstreamError)
                  && Decode(relay.out.written) == Map(StripCRs, PassAll(events)))
    ensures PingsOnlyWhenIdle(relay.out.log, start, interval)
  {
    hide Decode, Encode, Body, EventsUpTo, PingsOnlyWhenIdle, PassAll, StripCRs, Overdue, InTime;
    hide SseEventReader.Valid, Forwards;
    relay := new PassThroughRelay(interval, capacity, start);
    polls := 0;
    assert turns[..0] == [];
    NothingIsOverdue(start, turns, relay.reader.Steps(), relay.out.log);
    for i := 0 to |turns|
      invariant polls == i && relay.Valid() && relay.arrivals == Arrivals(turns[..i])
      invariant fresh(relay) && fresh(relay.reader) && fresh(relay.out)
      invariant relay.outcome.None? && Monotone(relay.clock, turns[i..])
      invariant relay.out.interval == interval && relay.out.start == start && relay.out.limit == capacity
      invariant InTime(start, turns, i, relay.reader.Steps(), relay.out.log)
    {
      assert Init(turns[..i + 1]) == turns[..i] && turns[i..][1..] == turns[i + 1..];
      ghost var left, log := relay.reader.Steps(), relay.out.log;
      relay.Step(turns[i]);
      polls := i + 1;
      if relay.outcome.Some? {
        break;
      }
      relay.reader.StepsAreBounded();
      StillInTime(start, turns, i, left, log, relay.reader.Steps(), relay.out.log);
    }
    if relay.outcome.None? {
      NoneOverdue(start, turns, polls, relay.reader.Steps(), relay.out.log);
    }
    relay.out.BrokenIffOverLimit();
    relay.reader.DeliveredIsPrefix();
    PassedSoFar((relay.reader.Arrived(), relay.reader.end), relay.reader.delivered);
    PassAllForwards(EventsUpTo(relay.reader.Arrived(), relay.reader.end));
    if relay.outcome.Some? && relay.outcome != Some(WriteError) {
      PassThroughPreserves(Items(relay.out.log), EventsUpTo(relay.reader.Arrived(), relay.reader.end));
    }
  }
}
