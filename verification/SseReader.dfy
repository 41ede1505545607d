/** The incremental event reader, polled while bytes trickle in and dropped at will. */
module SseReader {
  import opened Sequences
  import opened SseFraming

  /** What the upstream body will do once its buffered bytes are used up. */
  datatype End = Open | Eof | Failed

  /** Something the network delivers: more bytes, or the end of the body. */
  datatype Arrival = Nothing | Chunk(data: bytes) | Closed | Broken

  datatype Poll = NotReady | Ready(event: bytes) | Finished | ReadError

  datatype LineRead = Waiting | Count(n: nat) | Error

  /** Every event of an upstream body that delivered `bs` and then ended as `end` says. */
  function EventsUpTo(bs: bytes, end: End): seq<bytes> {
    if end.Eof? then Decode(bs) else Received(bs)
  }

  /** What a list of arrivals amounts to: the bytes of the body, and how it ends. */
  function Body(arrivals: seq<Arrival>): (bytes, End) {
    if arrivals == [] then ([], Open)
    else
      var (bs, end) := Body(Init(arrivals));
      var a := Last(arrivals);
      if !end.Open? then (bs, end)
      else (if a.Chunk? then bs + a.data else bs,
            if a.Closed? then Eof else if a.Broken? then Failed else Open)
  }

  /** However a body is cut into pieces, it is the pieces put together, up to its end. */
  lemma {:induction false} PiecesMakeBody(pieces: seq<bytes>, more: seq<Arrival>)
    ensures Body(Map(data => Chunk(data), pieces)) == (Concat(pieces), Open)
    ensures Body(Map(data => Chunk(data), pieces) + [Nothing]) == (Concat(pieces), Open)
    ensures Body(Map(data => Chunk(data), pieces) + [Closed] + more) == (Concat(pieces), Eof)
    ensures Body(Map(data => Chunk(data), pieces) + [Broken] + more) == (Concat(pieces), Failed)
  {
    var arrivals := Map(data => Chunk(data), pieces);
    if pieces != [] {
      PiecesMakeBody(Init(pieces), []);
    }
    Snoc(arrivals, Nothing);
    Snoc(arrivals, Closed);
    Snoc(arrivals, Broken);
    BodyGrows(arrivals + [Closed], more);
    BodyGrows(arrivals + [Broken], more);
  }

  /** An event whose closing blank line never came is yielded at the end of the body, and lost when
      the body breaks. */
  lemma UnclosedEvent(bs: bytes, payload: bytes)
    requires Tail(bs) == [] && PendingIn(Terminated(bs)) == []
    ensures var unclosed := bs + DataLines(Split(payload, IsLF));
            && EventsUpTo(unclosed, Eof) == EventsUpTo(bs, Eof) + [StripCRs(payload)]
            && EventsUpTo(unclosed, Failed) == EventsUpTo(unclosed, Open) == EventsUpTo(bs, Failed)
  {
    hide Split, Terminated, Tail, PendingIn, Received, DataLines, Join, Map, Decode;
    var parts := Split(payload, IsLF);
    SplitPiecesHaveNoSeparator(payload, IsLF);
    DataLinesStep(bs, parts);
    var unclosed := bs + DataLines(parts);
    assert [] + Map(StripCR, parts) == Map(StripCR, parts);
    DecodeIsCompletedPlusFlush(bs);
    DecodeIsCompletedPlusFlush(unclosed);
    assert Received(bs) + [] == Received(bs);
  }

  /** Later arrivals extend an open body and leave an ended one alone. */
  lemma {:induction false} BodyGrows(a: seq<Arrival>, b: seq<Arrival>)
    ensures Body(a).0 <= Body(a + b).0
    ensures !Body(a).1.Open? ==> Body(a + b) == Body(a)
  {
    if b == [] {
      assert a + b == a;
    } else {
      assert Init(a + b) == a + Init(b);
      BodyGrows(a, Init(b));
    }
  }

  /** Events already read survive whatever the body does next. */
  lemma EventsGrow(a: seq<Arrival>, b: seq<Arrival>)
    ensures var (x, e) := Body(a);
            var (y, f) := Body(a + b);
            EventsUpTo(x, e) <= EventsUpTo(y, f)
  {
    BodyGrows(a, b);
    var (x, e) := Body(a);
    var (y, f) := Body(a + b);
    assert y == x + y[|x|..];
    ReceivedGrows(x, y[|x|..]);
  }

  class SseEventReader {
    // the upstream body: bytes that arrived and are not consumed, and how it ends
    var buffer: bytes
    var end: End
    // the reader
    var line: bytes
    var dataLines: seq<bytes>
    var eof: bool
    // the local count of the `read_until` in flight; it dies with a dropped call
    var inFlight: nat
    // history: bytes consumed and events yielded since the start
    ghost var consumed: bytes
    ghost var delivered: seq<bytes>

    ghost predicate Valid()
      reads this
    {
      if eof then
        && end.Eof? && buffer == [] && line == []
        && Decode(consumed) == delivered + Flush(dataLines)
      else
        && line == Tail(consumed)
        && dataLines == PendingIn(Terminated(consumed))
        && delivered == Received(consumed)
    }

    /** All bytes the upstream has delivered so far, consumed or not. */
    ghost function Arrived(): bytes
      reads this
    {
      consumed + buffer
    }

    /** How many more polls can yield an event without a new arrival, at most. */
    ghost function Steps(): nat
      reads this
    {
      |buffer| + (if eof then 0 else 1) + (if dataLines == [] then 0 else 1)
    }

    lemma StepsAreBounded()
      requires Valid()
      ensures Steps() <= |Arrived()| + 2
    {
    }

    /** Nothing is buffered and the body is still open. */
    ghost predicate Silent()
      reads this
    {
      buffer == [] && end.Open? && !eof
    }

    lemma DeliveredIsPrefix()
      requires Valid()
      ensures delivered <= EventsUpTo(Arrived(), end)
    {
      if !eof {
        ReceivedGrows(consumed, buffer);
      } else {
        assert Arrived() == consumed;
      }
    }

    constructor ()
      ensures Valid() && Arrived() == [] && consumed == [] && delivered == [] && end.Open?
    {
      buffer, end, line, dataLines, eof, inFlight := [], Open, [], [], false, 0;
      consumed, delivered := [], [];
    }

    method Receive(a: Arrival, ghost before: seq<Arrival>)
      requires Valid() && (Arrived(), end) == Body(before)
      modifies this`buffer, this`end
      ensures Valid() && (Arrived(), end) == Body(before + [a])
      ensures a.Nothing? ==> Silent() == old(Silent())
      ensures !end.Open? ==> Steps() == old(Steps())
    {
      Snoc(before, a);
      Associative(consumed, buffer, if a.Chunk? then a.data else []);
      if end.Open? {
        match a
        case Nothing =>
        case Chunk(data) => buffer := buffer + data;
        case Closed => end := Eof;
        case Broken => end := Failed;
      }
    }

    /** Drop the call in flight, as the keepalive branch of a relay does. */
    method Drop()
      requires Valid()
      modifies this`inFlight
      ensures Valid() && Steps() == old(Steps())
    {
      inFlight := 0;
    }

    /** `read_until(LF)`: move bytes into `line` up to and including the first LF. */
    method ReadUntil() returns (r: LineRead)
      requires Valid() && !eof
      modifies this`buffer, this`line, this`inFlight, this`consumed
      ensures Arrived() == old(Arrived())
      ensures r.Count? && line != [] && Last(line) == LF ==>
                && |buffer| < |old(buffer)| && Tail(consumed) == []
                && Terminated(consumed) == Terminated(old(consumed)) + [Init(line)]
      ensures !(r.Count? && line != [] && Last(line) == LF) ==>
                && buffer == [] && LF !in line
                && line == Tail(consumed) && Terminated(consumed) == Terminated(old(consumed))
                && (r.Waiting? <==> end.Open?) && (r.Error? <==> end.Failed?)
      ensures r.Count? ==> (r.n == 0 ==> line == [] || Last(line) != LF)
    {
      hide EventsIn, PendingIn, Decode, Terminated, Tail;
      TailHasNoLF(consumed);
      var k := 0;
      while k < |buffer| && buffer[k] != LF
        invariant k <= |buffer| && LF !in buffer[..k]
      {
        k := k + 1;
      }
      ByteStep(consumed, buffer[..k]);
      assert buffer == buffer[..k] + buffer[k..];
      if k < |buffer| {
        assert buffer[..k + 1] == buffer[..k] + [LF];
        Associative(consumed, buffer[..k], [LF]);
        Associative(line, buffer[..k], [LF]);
        Snoc(line + buffer[..k], LF);
        Associative(consumed, buffer[..k + 1], buffer[k + 1..]);
        assert buffer == buffer[..k + 1] + buffer[k + 1..];
        line, consumed, buffer := line + buffer[..k + 1], consumed + buffer[..k + 1], buffer[k + 1..];
        r := Count(inFlight + k + 1);
        inFlight := 0;
      } else {
        assert buffer[..k] == buffer;
        assert consumed + buffer + [] == consumed + buffer;
        line, consumed, buffer := line + buffer, consumed + buffer, [];
        inFlight := inFlight + k;
        match end {
          case Open => r := Waiting;
          case Eof => r := Count(inFlight); inFlight := 0;
          case Failed => r := Error;
        }
      }
    }

    /** Process one line without its LF; true exactly for an event boundary. */
    method ProcessLine(l: bytes) returns (boundary: bool)
      modifies this`dataLines
      ensures boundary == Classify(l).Boundary?
      ensures dataLines == if Classify(l).Data? then old(dataLines) + [Classify(l).payload] else old(dataLines)
    {
      var kind := Classify(l);
      boundary := kind.Boundary?;
      if kind.Data? {
        dataLines := dataLines + [kind.payload];
      }
    }

    method TakePendingEvent() returns (event: Option<bytes>)
      modifies this`dataLines
      ensures dataLines == []
      ensures event == if old(dataLines) == [] then None else Some(Join(old(dataLines), LF))
    {
      if dataLines == [] {
        return None;
      }
      event := Some(Join(dataLines, LF));
      dataLines := [];
    }

    /** The end of the body: a last line without LF counts as a line. */
    method EndOfBody()
      requires Valid() && !eof && end.Eof? && buffer == []
      modifies this`eof, this`line, this`dataLines
      ensures Valid() && eof
    {
      hide Classify, EventsIn, PendingIn, Terminated, Tail, Decode;
      DecodeIsCompletedPlusFlush(consumed);
      eof := true;
      if line != [] {
        LineStep(Terminated(consumed), line);
        var _ := ProcessLine(line);
        line := [];
      }
    }

    /** A line just finished by an LF: process it, and take the event it closes, if any. */
    method EndOfLine(ghost before: seq<bytes>) returns (event: Option<bytes>)
      requires !eof && line != [] && Last(line) == LF
      requires Tail(consumed) == [] && Terminated(consumed) == before + [Init(line)]
      requires dataLines == PendingIn(before) && delivered == EventsIn(before)
      modifies this`line, this`dataLines, this`delivered
      ensures Valid() && (event.Some? ==> dataLines == [])
      ensures delivered == if event.Some? then old(delivered) + [event.value] else old(delivered)
    {
      hide Classify, EventsIn, PendingIn, Terminated, Tail, Decode;
      LineStep(before, Init(line));
      var boundary := ProcessLine(Init(line));
      line := [];
      event := None;
      if boundary {
        event := TakePendingEvent();
        if event.Some? {
          delivered := delivered + [event.value];
        }
      }
    }

    /** One poll of `next_event`. Whatever was read stays in the fields when the poll is not
        ready, so it makes no difference whether the call is then dropped or polled again. */
    method NextEvent() returns (r: Poll)
      requires Valid()
      modifies this
      ensures Valid() && Arrived() == old(Arrived()) && end == old(end)
      ensures delivered == if r.Ready? then old(delivered) + [r.event] else old(delivered)
      ensures r.Finished? || r.ReadError? || r.NotReady? ==> buffer == []
      ensures r.NotReady? ==> end.Open?
      ensures r.ReadError? ==> end.Failed?
      ensures r.Finished? ==> end.Eof?
      ensures !r.Ready? ==> delivered == EventsUpTo(Arrived(), end)
      ensures if r.Ready? then Steps() < old(Steps()) else Steps() <= old(Steps())
      ensures old(Silent()) ==> r.NotReady?
    {
      hide Classify, EventsIn, PendingIn, Terminated, Tail, Decode;
      while true
        invariant Valid() && Arrived() == old(Arrived()) && end == old(end)
        invariant delivered == old(delivered)
        invariant |buffer| + (if eof then 0 else 1) <= |old(buffer)| + (if old(eof) then 0 else 1)
        invariant Steps() <= old(Steps()) && (old(eof) ==> dataLines == old(dataLines))
        decreases |buffer|, !eof
      {
        if eof {
          var last := TakePendingEvent();
          if last.None? {
            assert Arrived() == consumed;
            return Finished;
          }
          delivered := delivered + [last.value];
          return Ready(last.value);
        }
        ghost var before := Terminated(consumed);
        var n := ReadUntil();
        if n.Waiting? {
          assert Arrived() == consumed;
          return NotReady;
        }
        if n.Error? {
          assert Arrived() == consumed;
          return ReadError;
        }
        if n.n == 0 || line == [] || Last(line) != LF {
          EndOfBody();
          continue;
        }
        var event := EndOfLine(before);
        if event.Some? {
          return Ready(event.value);
        }
      }
    }
  }
}
