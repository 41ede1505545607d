/** The downstream side of a relay: frames and keepalive comments written to a client that may
    go away at any byte, and the idle deadline on the last write. */
module Outlet {
  import opened Sequences
  import opened SseFraming

  /** Something the relay set out to write, and when that began and ended. */
  datatype Entry = Entry(item: Written, begun: nat, ended: nat)

  function Items(log: seq<Entry>): (r: seq<Written>)
    ensures |r| == |log|
  {
    if log == [] then [] else Items(Init(log)) + [Last(log).item]
  }

  function SentBy(log: seq<Entry>): seq<bytes> {
    Sent(Items(log))
  }

  function LastEnd(log: seq<Entry>, start: nat): nat {
    if log == [] then start else Last(log).ended
  }

  /** Nothing was written for a whole interval; an interval of zero never elapses. */
  predicate Idle(log: seq<Entry>, start: nat, interval: nat, now: nat) {
    interval > 0 && now >= LastEnd(log, start) + interval
  }

  /** Every ping begins at least one interval after the write before it (or the start) ended, and
      with interval zero there is none. */
  predicate PingsOnlyWhenIdle(log: seq<Entry>, start: nat, interval: nat) {
    log != [] ==>
      && PingsOnlyWhenIdle(Init(log), start, interval)
      && (Last(log).item.PingComment? ==> Idle(Init(log), start, interval, Last(log).begun))
  }

  /** How many pings began at `time` or later. */
  function PingsSince(log: seq<Entry>, time: nat): nat {
    if log == [] then 0
    else PingsSince(Init(log), time) + (if Last(log).item.PingComment? && Last(log).begun >= time then 1 else 0)
  }

  lemma {:induction false} PingsOnlyAdd(log: seq<Entry>, more: seq<Entry>, time: nat)
    ensures PingsSince(log, time) <= PingsSince(log + more, time)
  {
    if more == [] {
      assert log + more == log;
    } else {
      assert Init(log + more) == log + Init(more);
      PingsOnlyAdd(log, Init(more), time);
    }
  }

  class Downstream {
    const interval: nat
    var lastWrite: nat
    /** Bytes that reached the client, and how many more the connection will take. */
    var written: bytes
    var capacity: Option<nat>
    ghost const start: nat
    /** The capacity at the start; `None` is a client that stays. */
    ghost const limit: Option<nat>
    ghost var broken: bool
    ghost var log: seq<Entry>

    ghost predicate Valid()
      reads this
    {
      && Reached(Encode(Items(log)))
      && written <= Encode(Items(log))
      && PingsOnlyWhenIdle(log, start, interval)
    }

    /** What got through of `meant`: all of it, or as much as the connection took. */
    ghost predicate Reached(meant: bytes)
      reads this
    {
      && (limit.None? ==> capacity.None?)
      && (limit.Some? ==> capacity.Some? && |written| + capacity.value == limit.value)
      && (if broken then capacity == Some(0) && |written| < |meant| else written == meant)
    }

    /** The idle deadline counts from the last write. */
    ghost predicate Settled()
      reads this
    {
      LastEnd(log, start) == lastWrite
    }

    /** Nothing was written for a whole interval before `now`. */
    ghost predicate IdleAt(now: nat)
      reads this
    {
      Idle(log, start, interval, now)
    }

    constructor (interval: nat, capacity: Option<nat>, now: nat)
      ensures Valid() && Settled() && !broken && log == [] && lastWrite == now == start && this.interval == interval
      ensures limit == capacity
    {
      this.interval, this.capacity, lastWrite, written := interval, capacity, now, [];
      start, limit, broken, log := now, capacity, false, [];
    }

    /** The client is gone exactly if it was to get more than it would take. */
    lemma BrokenIffOverLimit()
      requires Valid()
      ensures broken <==> limit.Some? && |Encode(Items(log))| > limit.value
    {
    }

    /** Whether the keepalive deadline has elapsed; a zero interval disables it. */
    predicate Due(now: nat)
      reads this
    {
      interval > 0 && now >= lastWrite + interval
    }

    /** Append `bs` to a stream of which `before` was sent and `after` is still to come; a failed
        write leaves the client with a prefix of the whole. */
    method WriteAll(bs: bytes, ghost before: bytes, ghost after: bytes) returns (ok: bool)
      requires written <= before + bs + after && Reached(before)
      modifies this`written, this`capacity, this`broken
      ensures written <= before + bs + after && Reached(before + bs)
      ensures if old(broken) then broken && (ok <==> bs == []) else ok == !broken
    {
      ok := capacity.None? || |bs| <= capacity.value;
      if ok {
        written := written + bs;
        if capacity.Some? {
          capacity := Some(capacity.value - |bs|);
        }
      } else {
        assert before + bs + after == before + (bs + after);
        written := written + bs[..capacity.value];
        capacity, broken := Some(0), true;
      }
    }

    /** One data line, as three writes. */
    method WriteDataLine(line: bytes, ghost before: bytes, ghost after: bytes) returns (ok: bool)
      requires written <= before + DataLine(line) + after && Reached(before)
      modifies this`written, this`capacity, this`broken
      ensures written <= before + DataLine(line) + after && Reached(before + DataLine(line))
      ensures ok == !broken && (old(broken) ==> broken)
    {
      ghost var w := before + DataLine(line) + after;
      assert w == before + (DATA + [SP]) + (line + [LF] + after);
      ok := WriteAll(DATA + [SP], before, line + [LF] + after);
      if !ok { return; }
      assert w == before + (DATA + [SP]) + line + ([LF] + after);
      ok := WriteAll(line, before + (DATA + [SP]), [LF] + after);
      if !ok { return; }
      assert w == before + (DATA + [SP]) + line + [LF] + after;
      ok := WriteAll([LF], before + (DATA + [SP]) + line, after);
      assert before + (DATA + [SP]) + line + [LF] == before + DataLine(line);
    }

    method WriteDataLines(lines: seq<bytes>, ghost before: bytes, ghost after: bytes) returns (ok: bool)
      requires lines != [] && written <= before + DataLines(lines) + after && Reached(before)
      modifies this`written, this`capacity, this`broken
      ensures written <= before + DataLines(lines) + after && Reached(before + DataLines(lines))
      ensures ok == !broken && (old(broken) ==> broken)
    {
      hide DataLine;
      ok := true;
      ghost var whole := before + DataLines(lines) + after;
      assert lines[..0] == [] && before + DataLines([]) == before;
      for i := 0 to |lines|
        invariant written <= whole && (old(broken) ==> broken)
        invariant Reached(before + DataLines(lines[..i]))
        invariant i > 0 ==> ok && !broken
      {
        ghost var sent := before + DataLines(lines[..i]);
        DataLinesAround(before, lines, i, after);
        ok := WriteDataLine(lines[i], sent, DataLines(lines[i + 1..]) + after);
        if !ok { return; }
      }
      assert lines[..|lines|] == lines;
    }

    /** One event: a data line for each line of the payload, then a blank line; stops at the
        first failed write. */
    method WriteDataFrame(payload: bytes, ghost begun: nat, ghost ended: nat) returns (ok: bool)
      requires Valid()
      modifies this`written, this`capacity, this`broken, this`log
      ensures Valid() && ok == !broken && (old(broken) ==> broken)
      ensures log == old(log) + [Entry(EventFrame(payload), begun, ended)]
    {
      hide DataLines, Encode, Frame, PingsOnlyWhenIdle;
      ghost var was := Encode(Items(log));
      LogFrame(log, payload, begun, ended, start, interval);
      log := log + [Entry(EventFrame(payload), begun, ended)];
      var lines := Split(payload, IsLF);
      FrameIs(payload);
      Associative(was, DataLines(lines), [LF]);
      ok := WriteDataLines(lines, was, [LF]);
      if !ok { return; }
      assert was + DataLines(lines) + [LF] + [] == was + DataLines(lines) + [LF];
      ok := WriteAll([LF], was + DataLines(lines), []);
    }

    method Ping(now: nat, ghost ended: nat) returns (ok: bool)
      requires Valid() && Settled() && Due(now)
      modifies this`written, this`capacity, this`broken, this`log
      ensures Valid() && ok == !broken && (old(broken) ==> broken)
      ensures log == old(log) + [Entry(PingComment, now, ended)]
    {
      Snoc(log, Entry(PingComment, now, ended));
      Snoc(Items(log), PingComment);
      ghost var was := Encode(Items(log));
      log := log + [Entry(PingComment, now, ended)];
      assert was + PING + [] == Encode(Items(log));
      ok := WriteAll(PING, was, []);
    }

    method Touch(now: nat)
      requires Valid()
      modifies this`lastWrite
      ensures Valid() && lastWrite == now
    {
      lastWrite := now;
    }
  }

  lemma LogFrame(log: seq<Entry>, payload: bytes, begun: nat, ended: nat, start: nat, interval: nat)
    ensures var w := log + [Entry(EventFrame(payload), begun, ended)];
            && Encode(Items(w)) == Encode(Items(log)) + Frame(payload)
            && (PingsOnlyWhenIdle(log, start, interval) ==> PingsOnlyWhenIdle(w, start, interval))
  {
    hide Frame;
    Snoc(log, Entry(EventFrame(payload), begun, ended));
    Snoc(Items(log), EventFrame(payload));
  }

  lemma FrameIs(payload: bytes)
    ensures Frame(payload) == DataLines(Split(payload, IsLF)) + [LF]
  {
  }

  lemma {:induction false} DataLinesAppend(a: seq<bytes>, b: seq<bytes>)
    ensures DataLines(a + b) == DataLines(a) + DataLines(b)
  {
    if b == [] {
      assert a + b == a;
    } else {
      assert Init(a + b) == a + Init(b) && Last(a + b) == Last(b);
      DataLinesAppend(a, Init(b));
      Associative(DataLines(a), DataLines(Init(b)), DataLine(Last(b)));
    }
  }

  /** The bytes of an event: each line of the payload after `data: `, then an empty line. */
  lemma FrameByLines(line: bytes, rest: bytes)
    requires LF !in line
    ensures Frame(line) == DATA + [SP] + line + [LF] + [LF]
    ensures Frame(line + [LF] + rest) == DATA + [SP] + line + [LF] + Frame(rest)
  {
    hide DataLines;
    SplitWhole(line, IsLF);
    SplitAtSeparator(line, LF, rest, IsLF);
    DataLinesAppend([line], Split(rest, IsLF));
    OneDataLine(line);
    Associative(DataLine(line), DataLines(Split(rest, IsLF)), [LF]);
  }

  lemma OneDataLine(line: bytes)
    ensures DataLines([line]) == DataLine(line)
  {
    assert Init([line]) == [] && [] + DataLine(line) == DataLine(line);
  }

  lemma DataLinesTake(lines: seq<bytes>, i: nat)
    requires i < |lines|
    ensures DataLines(lines[..i + 1]) == DataLines(lines[..i]) + DataLine(lines[i])
  {
    hide DataLine;
    assert Init(lines[..i + 1]) == lines[..i] && Last(lines[..i + 1]) == lines[i];
  }

  lemma Regroup(before: bytes, a: bytes, l: bytes, b: bytes, after: bytes)
    ensures before + (a + l) == before + a + l
    ensures before + ((a + l) + b) + after == before + a + l + (b + after)
  {
  }

  lemma DataLinesAround(before: bytes, lines: seq<bytes>, i: nat, after: bytes)
    requires i < |lines|
    ensures before + DataLines(lines[..i + 1]) == before + DataLines(lines[..i]) + DataLine(lines[i])
    ensures before + DataLines(lines) + after
         == before + DataLines(lines[..i]) + DataLine(lines[i]) + (DataLines(lines[i + 1..]) + after)
  {
    hide *;
    DataLinesTake(lines, i);
    assert lines == lines[..i + 1] + lines[i + 1..];
    DataLinesAppend(lines[..i + 1], lines[i + 1..]);
    Regroup(before, DataLines(lines[..i]), DataLine(lines[i]), DataLines(lines[i + 1..]), after);
  }
}
