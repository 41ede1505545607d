/** The wire format of the relays: which events a byte stream carries (the reader's
    framing, read in one shot) and how payloads and keepalive comments are written. */
module SseFraming {
  import opened Sequences

  const LF: byte := 10
  const CR: byte := 13
  const SP: byte := 32
  const COLON: byte := 58
  const DATA: bytes := [100, 97, 116, 97, 58]                // "data:"
  const PING: bytes := [58, 32, 112, 105, 110, 103, 10, 10]  // ": ping" and two LF
  const DONE: bytes := [91, 68, 79, 78, 69, 93]              // "[DONE]"

  predicate IsLF(b: byte) {
    b == LF
  }

  predicate IsSpace(b: byte) {
    b == 9 || b == 10 || b == 12 || b == 13 || b == 32
  }

  predicate Blank(s: bytes) {
    forall i :: 0 <= i < |s| ==> IsSpace(s[i])
  }

  function TrimStart(s: bytes): (r: bytes)
    ensures |r| <= |s| && r == s[|s| - |r|..]
    ensures r != [] ==> !IsSpace(r[0])
    ensures Blank(s[..|s| - |r|])
  {
    if s != [] && IsSpace(s[0]) then TrimStart(s[1..]) else s
  }

  function TrimEnd(s: bytes): (r: bytes)
    ensures |r| <= |s| && r == s[..|r|]
    ensures r != [] ==> !IsSpace(Last(r))
    ensures Blank(s[|r|..])
  {
    if s != [] && IsSpace(Last(s)) then TrimEnd(Init(s)) else s
  }

  function Trim(s: bytes): (r: bytes)
    ensures r != [] ==> !IsSpace(r[0]) && !IsSpace(Last(r))
    ensures r == [] <==> Blank(s)
  {
    TrimEnd(TrimStart(s))
  }

  lemma {:induction false} TrimStartUnpads(a: bytes, s: bytes)
    requires Blank(a) && (s != [] ==> !IsSpace(s[0]))
    ensures TrimStart(a + s) == s
  {
    hide IsSpace;
    if a == [] {
      assert a + s == s;
    } else {
      assert (a + s)[0] == a[0] && (a + s)[1..] == a[1..] + s;
      TrimStartUnpads(a[1..], s);
    }
  }

  lemma {:induction false} TrimEndUnpads(s: bytes, b: bytes)
    requires Blank(b) && (s != [] ==> !IsSpace(Last(s)))
    ensures TrimEnd(s + b) == s
  {
    hide IsSpace;
    if b == [] {
      assert s + b == s;
    } else {
      assert Last(s + b) == Last(b) && Init(s + b) == s + Init(b);
      TrimEndUnpads(s, Init(b));
    }
  }

  /** What is trimmed off a payload is the whitespace around it. */
  lemma TrimUnpads(a: bytes, middle: bytes, b: bytes)
    requires Blank(a) && Blank(b)
    requires middle != [] ==> !IsSpace(middle[0]) && !IsSpace(Last(middle))
    ensures Trim(a + middle + b) == middle
  {
    if middle == [] {
      assert forall i :: 0 <= i < |a + b| ==> IsSpace((a + b)[i]);
      assert a + middle + b == (a + b) + [];
      TrimStartUnpads(a + b, []);
    } else {
      hide TrimStart, TrimEnd, IsSpace, Blank;
      Associative(a, middle, b);
      assert (middle + b)[0] == middle[0];
      TrimStartUnpads(a, middle + b);
      TrimEndUnpads(middle, b);
    }
  }

  lemma TrimIsTheMiddle(s: bytes) returns (a: bytes, b: bytes)
    ensures Blank(a) && Blank(b) && s == a + Trim(s) + b
  {
    hide IsSpace, Blank, TrimStart, TrimEnd;
    var t := TrimStart(s);
    a, b := s[..|s| - |t|], t[|Trim(s)|..];
    assert s == a + t && t == Trim(s) + b;
    Associative(a, Trim(s), b);
  }

  function StripCR(line: bytes): bytes {
    if line != [] && Last(line) == CR then Init(line) else line
  }

  // ---- reading -------------------------------------------------------------

  datatype Line = Boundary | Data(payload: bytes) | Ignored

  predicate IsBoundary(l: Line) {
    l.Boundary?
  }

  /** What one line, without its LF, means to the reader. */
  function Classify(line: bytes): Line {
    var l := StripCR(line);
    if Blank(l) then Boundary
    else if l[0] == COLON then Ignored
    else if DATA <= l then
      var payload := l[|DATA|..];
      Data(if payload != [] && payload[0] == SP then payload[1..] else payload)
    else Ignored
  }

  /** The payloads of the data lines among `block`. */
  function Payloads(block: seq<Line>): seq<bytes> {
    if block == [] then []
    else Payloads(Init(block)) + (if Last(block).Data? then [Last(block).payload] else [])
  }

  function Flush(pending: seq<bytes>): seq<bytes> {
    if pending == [] then [] else [Join(pending, LF)]
  }

  /** One event for each block that has a data line. */
  function EventsOf(blocks: seq<seq<Line>>): seq<bytes> {
    if blocks == [] then [] else EventsOf(Init(blocks)) + Flush(Payloads(Last(blocks)))
  }

  /** Lines grouped between boundaries. */
  function Blocks(lines: seq<bytes>): (r: seq<seq<Line>>)
    ensures r != []
  {
    Split(Map(Classify, lines), IsBoundary)
  }

  function EventsIn(lines: seq<bytes>): seq<bytes> {
    EventsOf(Init(Blocks(lines)))
  }

  function PendingIn(lines: seq<bytes>): seq<bytes> {
    Payloads(Last(Blocks(lines)))
  }

  /** The lines of `bs` that end in LF, and what follows the last LF. */
  function Terminated(bs: bytes): seq<bytes> {
    Init(Split(bs, IsLF))
  }

  function Tail(bs: bytes): bytes {
    Last(Split(bs, IsLF))
  }

  /** All events of a stream that ended after `bs`, read in one shot. */
  function Decode(bs: bytes): seq<bytes> {
    EventsOf(Blocks(Terminated(bs) + (if Tail(bs) == [] then [] else [Tail(bs)])))
  }

  /** The events already complete when `bs` has arrived and the stream goes on or fails. */
  function Received(bs: bytes): seq<bytes> {
    EventsIn(Terminated(bs))
  }

  // ---- writing -------------------------------------------------------------

  function DataLine(line: bytes): bytes {
    DATA + [SP] + line + [LF]
  }

  function DataLines(lines: seq<bytes>): bytes {
    if lines == [] then [] else DataLines(Init(lines)) + DataLine(Last(lines))
  }

  /** The bytes of one event: a data line for each line of the payload, then a blank line. */
  function Frame(payload: bytes): bytes {
    DataLines(Split(payload, IsLF)) + [LF]
  }

  datatype Written = EventFrame(payload: bytes) | PingComment

  function Encode(items: seq<Written>): bytes {
    if items == [] then []
    else Encode(Init(items)) + (if Last(items).PingComment? then PING else Frame(Last(items).payload))
  }

  function Sent(items: seq<Written>): seq<bytes> {
    if items == [] then []
    else Sent(Init(items)) + (if Last(items).PingComment? then [] else [Last(items).payload])
  }

  /** What a reader makes of a written payload: each line loses one trailing CR. */
  function StripCRs(payload: bytes): bytes {
    Join(Map(StripCR, Split(payload, IsLF)), LF)
  }

  predicate NoLineEndsInCR(payload: bytes) {
    forall k :: 0 <= k < |Split(payload, IsLF)| ==>
      Split(payload, IsLF)[k] == [] || Last(Split(payload, IsLF)[k]) != CR
  }

  /** A line closes an event exactly when it is all whitespace, carriage return included. */
  lemma BoundaryIffBlank(line: bytes)
    ensures Classify(line).Boundary? <==> Blank(line)
  {
    if line != [] && Last(line) == CR {
      assert line == Init(line) + [CR];
    }
  }

  /** A line is a data line exactly when `data:` starts it; one space after the colon and one
      trailing CR are not part of the data. Comments and other fields, blank lines apart, are
      skipped. */
  lemma DataLineMeaning(line: bytes, payload: bytes)
    ensures Classify(line) == Data(payload)
       <==> || StripCR(line) == DATA + ([SP] + payload)
            || (StripCR(line) == DATA + payload && (payload == [] || payload[0] != SP))
    ensures Classify(line).Ignored? <==> !Blank(line) && !(DATA <= StripCR(line))
    ensures (line == [] || Last(line) != CR) ==> StripCR(line) == line && Classify(line + [CR]) == Classify(line)
  {
    BoundaryIffBlank(line);
    Snoc(line, CR);
    hide Blank;
    var l := StripCR(line);
    StartsWithData(payload);
    StartsWithData([SP] + payload);
    if DATA <= l {
      StartsWithData(l[|DATA|..]);
      assert l == DATA + l[|DATA|..];
      var rest := l[|DATA|..];
      assert rest != [] ==> rest == [rest[0]] + rest[1..];
      assert ([SP] + payload)[1..] == payload;
    }
  }

  lemma StartsWithData(rest: bytes)
    ensures DATA <= DATA + rest && (DATA + rest)[|DATA|..] == rest && !Blank(DATA + rest) && (DATA + rest)[0] != COLON
  {
    assert !IsSpace((DATA + rest)[0]);
  }

  // ---- one more line -------------------------------------------------------

  /** A boundary closes the pending block, a data line joins it, any other line is skipped. */
  lemma LineStep(lines: seq<bytes>, l: bytes)
    ensures Classify(l).Boundary? ==>
              EventsIn(lines + [l]) == EventsIn(lines) + Flush(PendingIn(lines)) && PendingIn(lines + [l]) == []
    ensures Classify(l).Data? ==>
              && EventsIn(lines + [l]) == EventsIn(lines)
              && PendingIn(lines + [l]) == PendingIn(lines) + [Classify(l).payload]
    ensures Classify(l).Ignored? ==>
              EventsIn(lines + [l]) == EventsIn(lines) && PendingIn(lines + [l]) == PendingIn(lines)
  {
    var kinds, blocks := Map(Classify, lines), Blocks(lines);
    Snoc(lines, l);
    assert Map(Classify, lines + [l]) == kinds + [Classify(l)];
    SplitSnoc(kinds, Classify(l), IsBoundary);
    if Classify(l).Boundary? {
      Snoc(blocks, []);
    } else {
      Snoc(Init(blocks), Last(blocks) + [Classify(l)]);
      Snoc(Last(blocks), Classify(l));
    }
  }

  /** The one-shot reading is the events completed so far plus at most one flushed at the end. */
  lemma DecodeIsCompletedPlusFlush(bs: bytes)
    ensures Tail(bs) == [] ==> Decode(bs) == Received(bs) + Flush(PendingIn(Terminated(bs)))
    ensures Tail(bs) != [] ==>
              Decode(bs) == EventsIn(Terminated(bs) + [Tail(bs)]) + Flush(PendingIn(Terminated(bs) + [Tail(bs)]))
  {
    if Tail(bs) == [] {
      assert Terminated(bs) + [] == Terminated(bs);
    }
  }

  /** Ending the stream adds at most one event to those already complete. */
  lemma AtMostOneEventIsFlushed(bs: bytes)
    ensures Received(bs) <= Decode(bs) && |Decode(bs)| <= |Received(bs)| + 1
  {
    hide Classify, EventsIn, PendingIn, Terminated, Tail, Decode;
    DecodeIsCompletedPlusFlush(bs);
    LineStep(Terminated(bs), Tail(bs));
  }

  lemma {:induction false} SplitExtend(bs: bytes, l: bytes)
    requires LF !in l
    ensures Split(bs + l, IsLF) == Init(Split(bs, IsLF)) + [Tail(bs) + l]
  {
    if l == [] {
      assert bs + l == bs && Tail(bs) + l == Tail(bs);
    } else {
      hide Split;
      SplitExtend(bs, Init(l));
      assert l == Init(l) + [Last(l)] && Last(l) in l;
      Associative(bs, Init(l), [Last(l)]);
      SplitSnoc(bs + Init(l), Last(l), IsLF);
      Snoc(Init(Split(bs, IsLF)), Tail(bs) + Init(l));
      Associative(Tail(bs), Init(l), [Last(l)]);
    }
  }

  /** Bytes without LF extend the unfinished line; an LF finishes it. */
  lemma ByteStep(bs: bytes, l: bytes)
    requires LF !in l
    ensures Terminated(bs + l) == Terminated(bs) && Tail(bs + l) == Tail(bs) + l
    ensures Terminated(bs + l + [LF]) == Terminated(bs) + [Tail(bs) + l] && Tail(bs + l + [LF]) == []
  {
    SplitExtend(bs, l);
    Snoc(Init(Split(bs, IsLF)), Tail(bs) + l);
    SplitSnoc(bs + l, LF, IsLF);
    Snoc(Split(bs + l, IsLF), []);
  }

  lemma TailHasNoLF(bs: bytes)
    ensures LF !in Tail(bs)
  {
    SplitPiecesHaveNoSeparator(bs, IsLF);
  }

  // ---- prefixes ------------------------------------------------------------

  lemma {:induction false} CompletedGrows(lines: seq<bytes>, more: seq<bytes>)
    ensures EventsIn(lines) <= EventsIn(lines + more)
  {
    if more == [] {
      assert lines + more == lines;
    } else {
      hide EventsIn, PendingIn, Classify, Flush;
      CompletedGrows(lines, Init(more));
      Associative(lines, Init(more), [Last(more)]);
      assert more == Init(more) + [Last(more)];
      LineStep(lines + Init(more), Last(more));
    }
  }

  lemma {:induction false} TerminatedGrows(bs: bytes, more: bytes)
    ensures Terminated(bs) <= Terminated(bs + more)
  {
    if more == [] {
      assert bs + more == bs;
    } else {
      TerminatedGrows(bs, Init(more));
      assert bs + more == (bs + Init(more)) + [Last(more)];
      SplitSnoc(bs + Init(more), Last(more), IsLF);
    }
  }

  /** More bytes never take back or change an event that was complete. */
  lemma ReceivedGrows(bs: bytes, more: bytes)
    ensures Received(bs) <= Received(bs + more) <= Decode(bs + more)
  {
    TerminatedGrows(bs, more);
    var a, b := Terminated(bs), Terminated(bs + more);
    assert b == a + b[|a|..];
    CompletedGrows(a, b[|a|..]);
    DecodeIsCompletedPlusFlush(bs + more);
    if Tail(bs + more) != [] {
      CompletedGrows(b, [Tail(bs + more)]);
    }
  }

  // ---- round trip ----------------------------------------------------------

  lemma DataLineClassified(line: bytes)
    requires LF !in line
    ensures Classify(DATA + [SP] + line) == Data(StripCR(line))
  {
    var l := DATA + [SP] + line;
    assert StripCR(l) == DATA + [SP] + StripCR(line);
    assert !IsSpace(StripCR(l)[0]);
  }

  /** At the start of a line, writing a whole line adds just that line. */
  lemma LineWritten(bs: bytes, l: bytes)
    requires Tail(bs) == [] && LF !in l
    ensures Terminated(bs + (l + [LF])) == Terminated(bs) + [l] && Tail(bs + (l + [LF])) == []
  {
    ByteStep(bs, l);
    assert bs + (l + [LF]) == bs + l + [LF] && [] + l == l;
  }

  lemma DataLineStep(bs: bytes, line: bytes)
    requires Tail(bs) == [] && LF !in line
    ensures var w := bs + DataLine(line);
            && Tail(w) == []
            && Received(w) == Received(bs)
            && PendingIn(Terminated(w)) == PendingIn(Terminated(bs)) + [StripCR(line)]
  {
    var l := DATA + [SP] + line;
    LineWritten(bs, l);
    DataLineClassified(line);
    LineStep(Terminated(bs), l);
  }

  lemma {:induction false} DataLinesStep(bs: bytes, parts: seq<bytes>)
    requires Tail(bs) == []
    requires forall k :: 0 <= k < |parts| ==> LF !in parts[k]
    ensures var w := bs + DataLines(parts);
            && Tail(w) == []
            && Received(w) == Received(bs)
            && PendingIn(Terminated(w)) == PendingIn(Terminated(bs)) + Map(StripCR, parts)
  {
    if parts == [] {
      assert bs + DataLines(parts) == bs;
    } else {
      var w := bs + DataLines(Init(parts));
      DataLinesStep(bs, Init(parts));
      DataLineStep(w, Last(parts));
      Associative(bs, DataLines(Init(parts)), DataLine(Last(parts)));
      Associative(PendingIn(Terminated(bs)), Map(StripCR, Init(parts)), [StripCR(Last(parts))]);
    }
  }

  lemma BlankLineStep(bs: bytes)
    requires Tail(bs) == []
    ensures var w := bs + [LF];
            && Tail(w) == []
            && PendingIn(Terminated(w)) == []
            && Received(w) == Received(bs) + Flush(PendingIn(Terminated(bs)))
  {
    LineWritten(bs, []);
    assert [] + [LF] == [LF];
    LineStep(Terminated(bs), []);
  }

  lemma FrameStep(bs: bytes, payload: bytes)
    requires Tail(bs) == [] && PendingIn(Terminated(bs)) == []
    ensures var w := bs + Frame(payload);
            && Tail(w) == []
            && PendingIn(Terminated(w)) == []
            && Received(w) == Received(bs) + [StripCRs(payload)]
  {
    hide Split, Terminated, Tail, PendingIn, Received, DataLines, Join, Map;
    var parts := Split(payload, IsLF);
    SplitPiecesHaveNoSeparator(payload, IsLF);
    DataLinesStep(bs, parts);
    var w := bs + DataLines(parts);
    assert [] + Map(StripCR, parts) == Map(StripCR, parts);
    BlankLineStep(w);
    assert bs + Frame(payload) == w + [LF];
  }

  lemma CommentIsIgnored()
    ensures Classify(PING[..6]).Ignored? && LF !in PING[..6]
  {
    assert !IsSpace(StripCR(PING[..6])[0]);
  }

  lemma PingStep(bs: bytes)
    requires Tail(bs) == [] && PendingIn(Terminated(bs)) == []
    ensures var w := bs + PING;
            && Tail(w) == []
            && PendingIn(Terminated(w)) == []
            && Received(w) == Received(bs)
  {
    hide Terminated, Tail, PendingIn, EventsIn, Classify;
    var comment := PING[..6];
    CommentIsIgnored();
    LineWritten(bs, comment);
    LineStep(Terminated(bs), comment);
    var w := bs + (comment + [LF]);
    BlankLineStep(w);
    assert bs + PING == w + [LF];
  }

  /** Reading back what was written gives every payload in order, pings invisible, each payload
      line short of one trailing CR; nothing is left pending. */
  lemma {:induction false} ReadBack(items: seq<Written>)
    ensures Tail(Encode(items)) == [] && PendingIn(Terminated(Encode(items))) == []
    ensures Received(Encode(items)) == Map(StripCRs, Sent(items))
    ensures Decode(Encode(items)) == Map(StripCRs, Sent(items))
  {
    if items != [] {
      var bs := Encode(Init(items));
      ReadBack(Init(items));
      if Last(items).PingComment? {
        PingStep(bs);
        assert Sent(items) == Sent(Init(items));
      } else {
        FrameStep(bs, Last(items).payload);
        Snoc(Sent(Init(items)), Last(items).payload);
      }
    }
    DecodeIsCompletedPlusFlush(Encode(items));
  }

  lemma StripCRsIsIdentityIff(payload: bytes)
    ensures StripCRs(payload) == payload <==> NoLineEndsInCR(payload)
  {
    var parts := Split(payload, IsLF);
    var stripped := Map(StripCR, parts);
    JoinOfSplit(payload, LF, IsLF);
    SplitPiecesHaveNoSeparator(payload, IsLF);
    SplitOfJoin(stripped, LF, IsLF);
    if NoLineEndsInCR(payload) {
      assert stripped == parts;
    }
    if StripCRs(payload) == payload {
      forall k | 0 <= k < |parts|
        ensures parts[k] == [] || Last(parts[k]) != CR
      {
        assert stripped[k] == parts[k];
      }
    }
  }

  /** The frame round trip, with pings anywhere between frames, is exact precisely when no
      payload line ends in CR. */
  lemma RoundTrip(items: seq<Written>)
    ensures Decode(Encode(items)) == Sent(items)
       <==> forall i :: 0 <= i < |Sent(items)| ==> NoLineEndsInCR(Sent(items)[i])
  {
    hide Decode, Encode, Sent, StripCRs, NoLineEndsInCR;
    ReadBack(items);
    var sent := Sent(items);
    var seen := Map(StripCRs, sent);
    hide Map;
    forall i | 0 <= i < |sent|
      ensures seen[i] == sent[i] <==> NoLineEndsInCR(sent[i])
    {
      StripCRsIsIdentityIff(sent[i]);
    }
  }
}
