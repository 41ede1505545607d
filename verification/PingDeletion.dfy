/** Deleting the keepalive comments from the bytes of a relay. */
module PingDeletion {
  import opened Sequences
  import opened SseFraming

  function WithoutPings(items: seq<Written>): seq<Written> {
    if items == [] then []
    else WithoutPings(Init(items)) + (if Last(items).PingComment? then [] else [Last(items)])
  }

  lemma {:induction false} WithoutPingsIsSent(items: seq<Written>)
    ensures WithoutPings(items) == Map(p => EventFrame(p), Sent(items))
    ensures Sent(WithoutPings(items)) == Sent(items)
  {
    if items != [] {
      WithoutPingsIsSent(Init(items));
      if Last(items).EventFrame? {
        Snoc(Sent(Init(items)), Last(items).payload);
        Snoc(WithoutPings(Init(items)), Last(items));
      } else {
        assert Sent(items) == Sent(Init(items)) && WithoutPings(items) == WithoutPings(Init(items));
      }
    }
  }

  const PING_LINE: bytes := PING[..6]

  /** Drop each ping line together with the blank line after it. */
  function DropPings(lines: seq<bytes>): seq<bytes>
    decreases |lines|
  {
    if lines == [] then []
    else if Last(lines) == [] && |lines| >= 2 && lines[|lines| - 2] == PING_LINE then DropPings(lines[..|lines| - 2])
    else DropPings(Init(lines)) + [Last(lines)]
  }

  function Unlines(lines: seq<bytes>): bytes {
    if lines == [] then [] else Unlines(Init(lines)) + (Last(lines) + [LF])
  }

  function DeletePings(bs: bytes): bytes {
    Unlines(DropPings(Terminated(bs)))
  }

  /** A line that does not end a ping stays. */
  lemma LineStays(bs: bytes, l: bytes)
    requires Tail(bs) == [] && LF !in l
    requires l == [] && Terminated(bs) != [] ==> Last(Terminated(bs)) != PING_LINE
    ensures DeletePings(bs + (l + [LF])) == DeletePings(bs) + (l + [LF])
  {
    hide Terminated, Tail;
    LineWritten(bs, l);
    var lines := Terminated(bs);
    Snoc(lines, l);
    if lines != [] {
      assert (lines + [l])[|lines| - 1] == Last(lines);
    }
    Snoc(DropPings(lines), l);
  }

  lemma {:induction false} DataLinesStay(bs: bytes, parts: seq<bytes>)
    requires Tail(bs) == []
    requires forall k :: 0 <= k < |parts| ==> LF !in parts[k]
    ensures var w := bs + DataLines(parts);
            && DeletePings(w) == DeletePings(bs) + DataLines(parts) && Tail(w) == []
            && (parts != [] ==> Terminated(w) != [] && DATA <= Last(Terminated(w)))
  {
    if parts == [] {
      assert bs + DataLines(parts) == bs && DeletePings(bs) + DataLines(parts) == DeletePings(bs);
    } else {
      hide Terminated, Tail, DeletePings;
      var w, l := bs + DataLines(Init(parts)), DATA + [SP] + Last(parts);
      DataLinesStay(bs, Init(parts));
      LineWritten(w, l);
      LineStays(w, l);
      assert DataLine(Last(parts)) == l + [LF];
      Associative(bs, DataLines(Init(parts)), l + [LF]);
      Associative(DeletePings(bs), DataLines(Init(parts)), l + [LF]);
      assert DATA <= l;
    }
  }

  lemma FrameStays(bs: bytes, payload: bytes)
    requires Tail(bs) == []
    ensures DeletePings(bs + Frame(payload)) == DeletePings(bs) + Frame(payload) && Tail(bs + Frame(payload)) == []
  {
    hide Terminated, Tail, DeletePings, DataLines, Split;
    var parts := Split(payload, IsLF);
    SplitPiecesHaveNoSeparator(payload, IsLF);
    DataLinesStay(bs, parts);
    var w := bs + DataLines(parts);
    assert [] + [LF] == [LF];
    assert Last(Terminated(w))[0] == DATA[0];
    LineWritten(w, []);
    LineStays(w, []);
    Associative(bs, DataLines(parts), [LF]);
    Associative(DeletePings(bs), DataLines(parts), [LF]);
  }

  lemma PingIsDropped(bs: bytes)
    requires Tail(bs) == []
    ensures DeletePings(bs + PING) == DeletePings(bs) && Tail(bs + PING) == []
  {
    hide Terminated, Tail;
    CommentIsIgnored();
    LineWritten(bs, PING_LINE);
    var w := bs + (PING_LINE + [LF]);
    LineWritten(w, []);
    assert [] + [LF] == [LF] && bs + PING == w + [LF];
    var lines := Terminated(bs);
    var all := lines + [PING_LINE] + [[]];
    assert Last(all) == [] && all[|all| - 2] == PING_LINE && all[..|all| - 2] == lines;
  }

  /** On the bytes a relay wrote, deletion removes exactly the pings. */
  lemma {:induction false} DeletingPings(items: seq<Written>)
    ensures DeletePings(Encode(items)) == Encode(WithoutPings(items)) && Tail(Encode(items)) == []
  {
    if items != [] {
      hide DeletePings, Frame, Tail;
      DeletingPings(Init(items));
      var bs := Encode(Init(items));
      if Last(items).PingComment? {
        PingIsDropped(bs);
        assert WithoutPings(items) == WithoutPings(Init(items));
      } else {
        FrameStays(bs, Last(items).payload);
        Snoc(WithoutPings(Init(items)), Last(items));
      }
    }
  }
}
