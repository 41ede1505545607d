/** The assumptions about JSON can be met: a codec that is faithful and a record format that round
    trips, both from one self-delimiting code. */
module Witnesses {
  import opened Sequences
  import opened SseFraming
  import opened Chunks
  import AuthFile

  type Code = seq<nat>

  function Text(s: string): Code {
    [|s|] + seq(|s|, i requires 0 <= i < |s| => s[i] as nat)
  }

  function Integer(n: int): Code {
    if n < 0 then [0, -n] else [1, n]
  }

  function OptText(o: Option<string>): Code {
    if o.None? then [0] else [1] + Text(o.value)
  }

  function OptInteger(o: Option<int>): Code {
    if o.None? then [0] else [1] + Integer(o.value)
  }

  function UsageCode(u: Usage): Code {
    Integer(u.promptTokens) + (Integer(u.completionTokens) + (Integer(u.totalTokens)
    + (OptInteger(u.cachedTokens) + OptInteger(u.reasoningTokens))))
  }

  function OptUsage(o: Option<Usage>): Code {
    if o.None? then [0] else [1] + UsageCode(o.value)
  }

  function ToolCode(t: ToolDelta): Code {
    [t.index] + (OptText(t.id) + (OptText(t.callType) + (OptText(t.name) + OptText(t.arguments))))
  }

  function ToolsCode(ts: seq<ToolDelta>): Code {
    if ts == [] then [0] else [1] + (ToolCode(ts[0]) + ToolsCode(ts[1..]))
  }

  function DeltaCode(d: Delta): Code {
    OptText(d.role) + (OptText(d.content) + (OptText(d.reasoning) + ToolsCode(d.toolCalls)))
  }

  function ChunkCode(c: Chunk): Code {
    var created := if c.created.None? then None else Some(c.created.value as int);
    Text(c.id) + (OptInteger(created)
    + (Text(c.model) + (DeltaCode(c.delta) + (OptText(c.finish) + OptUsage(c.usage)))))
  }

  function RecordCode(r: AuthFile.Record): Code {
    Text(r.idToken) + (Text(r.accessToken) + (Text(r.refreshToken) + (Text(r.accountId) + Integer(r.expiresAt))))
  }

  // ---- each code can be read off the front of a longer one -----------------------------------

  lemma Cut(a: Code, x: Code, b: Code, y: Code)
    requires a + x == b + y && |a| == |b|
    ensures a == b && x == y
  {
    assert (a + x)[..|a|] == a && (b + y)[..|b|] == b;
    assert (a + x)[|a|..] == x && (b + y)[|b|..] == y;
  }

  lemma ReadText(s: string, x: Code, t: string, y: Code)
    requires Text(s) + x == Text(t) + y
    ensures s == t && x == y
  {
    assert (Text(s) + x)[0] == |s| && (Text(t) + y)[0] == |t|;
    Cut(Text(s), x, Text(t), y);
    forall i | 0 <= i < |s|
      ensures s[i] == t[i]
    {
      assert Text(s)[i + 1] == s[i] as nat && Text(t)[i + 1] == t[i] as nat;
    }
  }

  lemma ReadInteger(m: int, x: Code, n: int, y: Code)
    requires Integer(m) + x == Integer(n) + y
    ensures m == n && x == y
  {
    Cut(Integer(m), x, Integer(n), y);
    assert Integer(m)[0] == Integer(n)[0] && Integer(m)[1] == Integer(n)[1];
  }

  /** A leading tag, and what follows it. */
  lemma ReadTag(m: nat, a: Code, x: Code, n: nat, b: Code, y: Code)
    requires ([m] + a) + x == ([n] + b) + y
    ensures m == n && a + x == b + y
  {
    Associative([m], a, x);
    Associative([n], b, y);
    Cut([m], a + x, [n], b + y);
  }

  lemma ReadOptText(o: Option<string>, x: Code, p: Option<string>, y: Code)
    requires OptText(o) + x == OptText(p) + y
    ensures o == p && x == y
  {
    hide Text;
    assert [0] + [] == [0] && [] + x == x && [] + y == y;
    ReadTag(OptText(o)[0], OptText(o)[1..], x, OptText(p)[0], OptText(p)[1..], y);
    if o.Some? {
      ReadText(o.value, x, p.value, y);
    }
  }

  lemma ReadOptInteger(o: Option<int>, x: Code, p: Option<int>, y: Code)
    requires OptInteger(o) + x == OptInteger(p) + y
    ensures o == p && x == y
  {
    hide Integer;
    assert [0] + [] == [0] && [] + x == x && [] + y == y;
    ReadTag(OptInteger(o)[0], OptInteger(o)[1..], x, OptInteger(p)[0], OptInteger(p)[1..], y);
    if o.Some? {
      ReadInteger(o.value, x, p.value, y);
    }
  }

  lemma Associative5(a: Code, b: Code, c: Code, d: Code, e: Code, x: Code)
    ensures (a + (b + (c + (d + e)))) + x == a + (b + (c + (d + (e + x))))
  {
  }

  lemma ReadUsage(u: Usage, x: Code, v: Usage, y: Code)
    requires UsageCode(u) + x == UsageCode(v) + y
    ensures u == v && x == y
  {
    hide Integer, OptInteger;
    Associative5(Integer(u.promptTokens), Integer(u.completionTokens), Integer(u.totalTokens),
                 OptInteger(u.cachedTokens), OptInteger(u.reasoningTokens), x);
    Associative5(Integer(v.promptTokens), Integer(v.completionTokens), Integer(v.totalTokens),
                 OptInteger(v.cachedTokens), OptInteger(v.reasoningTokens), y);
    var ux, vy := OptInteger(u.reasoningTokens) + x, OptInteger(v.reasoningTokens) + y;
    var ux4, vy4 := OptInteger(u.cachedTokens) + ux, OptInteger(v.cachedTokens) + vy;
    var ux3, vy3 := Integer(u.totalTokens) + ux4, Integer(v.totalTokens) + vy4;
    ReadInteger(u.promptTokens, Integer(u.completionTokens) + ux3, v.promptTokens, Integer(v.completionTokens) + vy3);
    ReadInteger(u.completionTokens, ux3, v.completionTokens, vy3);
    ReadInteger(u.totalTokens, ux4, v.totalTokens, vy4);
    ReadOptInteger(u.cachedTokens, ux, v.cachedTokens, vy);
    ReadOptInteger(u.reasoningTokens, x, v.reasoningTokens, y);
  }

  lemma ReadOptUsage(o: Option<Usage>, x: Code, p: Option<Usage>, y: Code)
    requires OptUsage(o) + x == OptUsage(p) + y
    ensures o == p && x == y
  {
    hide UsageCode;
    assert [0] + [] == [0] && [] + x == x && [] + y == y;
    ReadTag(OptUsage(o)[0], OptUsage(o)[1..], x, OptUsage(p)[0], OptUsage(p)[1..], y);
    if o.Some? {
      ReadUsage(o.value, x, p.value, y);
    }
  }

  lemma ReadTool(t: ToolDelta, x: Code, u: ToolDelta, y: Code)
    requires ToolCode(t) + x == ToolCode(u) + y
    ensures t == u && x == y
  {
    hide OptText;
    Associative5([t.index], OptText(t.id), OptText(t.callType), OptText(t.name), OptText(t.arguments), x);
    Associative5([u.index], OptText(u.id), OptText(u.callType), OptText(u.name), OptText(u.arguments), y);
    var tx, uy := OptText(t.arguments) + x, OptText(u.arguments) + y;
    var tx4, uy4 := OptText(t.name) + tx, OptText(u.name) + uy;
    var tx3, uy3 := OptText(t.callType) + tx4, OptText(u.callType) + uy4;
    Cut([t.index], OptText(t.id) + tx3, [u.index], OptText(u.id) + uy3);
    ReadOptText(t.id, tx3, u.id, uy3);
    ReadOptText(t.callType, tx4, u.callType, uy4);
    ReadOptText(t.name, tx, u.name, uy);
    ReadOptText(t.arguments, x, u.arguments, y);
  }

  lemma {:induction false} ReadTools(ts: seq<ToolDelta>, x: Code, us: seq<ToolDelta>, y: Code)
    requires ToolsCode(ts) + x == ToolsCode(us) + y
    ensures ts == us && x == y
  {
    hide ToolCode;
    assert [0] + [] == [0] && [] + x == x && [] + y == y;
    ReadTag(ToolsCode(ts)[0], ToolsCode(ts)[1..], x, ToolsCode(us)[0], ToolsCode(us)[1..], y);
    if ts != [] {
      Associative(ToolCode(ts[0]), ToolsCode(ts[1..]), x);
      Associative(ToolCode(us[0]), ToolsCode(us[1..]), y);
      ReadTool(ts[0], ToolsCode(ts[1..]) + x, us[0], ToolsCode(us[1..]) + y);
      ReadTools(ts[1..], x, us[1..], y);
      assert ts == [ts[0]] + ts[1..] && us == [us[0]] + us[1..];
    }
  }

  lemma Associative4(a: Code, b: Code, c: Code, d: Code, x: Code)
    ensures (a + (b + (c + d))) + x == a + (b + (c + (d + x)))
  {
  }

  lemma ReadDelta(d: Delta, x: Code, e: Delta, y: Code)
    requires DeltaCode(d) + x == DeltaCode(e) + y
    ensures d == e && x == y
  {
    hide OptText, ToolsCode;
    Associative4(OptText(d.role), OptText(d.content), OptText(d.reasoning), ToolsCode(d.toolCalls), x);
    Associative4(OptText(e.role), OptText(e.content), OptText(e.reasoning), ToolsCode(e.toolCalls), y);
    var dx, ey := ToolsCode(d.toolCalls) + x, ToolsCode(e.toolCalls) + y;
    var dx3, ey3 := OptText(d.reasoning) + dx, OptText(e.reasoning) + ey;
    ReadOptText(d.role, OptText(d.content) + dx3, e.role, OptText(e.content) + ey3);
    ReadOptText(d.content, dx3, e.content, ey3);
    ReadOptText(d.reasoning, dx, e.reasoning, ey);
    ReadTools(d.toolCalls, x, e.toolCalls, y);
  }

  lemma ReadChunk(c: Chunk, d: Chunk)
    requires ChunkCode(c) == ChunkCode(d)
    ensures c == d
  {
    hide Text, OptInteger, DeltaCode, OptText, OptUsage;
    var cAt := if c.created.None? then None else Some(c.created.value as int);
    var dAt := if d.created.None? then None else Some(d.created.value as int);
    var c5, d5 := OptText(c.finish) + OptUsage(c.usage), OptText(d.finish) + OptUsage(d.usage);
    var c4, d4 := DeltaCode(c.delta) + c5, DeltaCode(d.delta) + d5;
    var c3, d3 := Text(c.model) + c4, Text(d.model) + d4;
    ReadText(c.id, OptInteger(cAt) + c3, d.id, OptInteger(dAt) + d3);
    ReadOptInteger(cAt, c3, dAt, d3);
    ReadText(c.model, c4, d.model, d4);
    ReadDelta(c.delta, c5, d.delta, d5);
    ReadOptText(c.finish, OptUsage(c.usage), d.finish, OptUsage(d.usage));
    assert OptUsage(c.usage) + [] == OptUsage(c.usage) && OptUsage(d.usage) + [] == OptUsage(d.usage);
    ReadOptUsage(c.usage, [], d.usage, []);
  }

  lemma ReadRecord(q: AuthFile.Record, r: AuthFile.Record)
    requires RecordCode(q) == RecordCode(r)
    ensures q == r
  {
    hide Text, Integer;
    var q4, r4 := Text(q.accountId) + Integer(q.expiresAt), Text(r.accountId) + Integer(r.expiresAt);
    var q3, r3 := Text(q.refreshToken) + q4, Text(r.refreshToken) + r4;
    ReadText(q.idToken, Text(q.accessToken) + q3, r.idToken, Text(r.accessToken) + r3);
    ReadText(q.accessToken, q3, r.accessToken, r3);
    ReadText(q.refreshToken, q4, r.refreshToken, r4);
    ReadText(q.accountId, Integer(q.expiresAt), r.accountId, Integer(r.expiresAt));
    assert Integer(q.expiresAt) + [] == Integer(q.expiresAt) && Integer(r.expiresAt) + [] == Integer(r.expiresAt);
    ReadInteger(q.expiresAt, [], r.expiresAt, []);
  }

  // ---- numbers as lines of digits ---------------------------------------------------------------

  const ONE: byte := 49
  const ZERO: byte := 48

  /** Each number as that many ones and a zero. */
  function Digits(code: Code): (bs: bytes)
    ensures forall b :: b in bs ==> b in {ZERO, ONE}
    decreases |code|, if code == [] then 0 else code[0]
  {
    if code == [] then []
    else if code[0] == 0 then [ZERO] + Digits(code[1..])
    else [ONE] + Digits([code[0] - 1] + code[1..])
  }

  lemma {:induction false} ReadDigits(a: Code, b: Code)
    requires Digits(a) == Digits(b)
    ensures a == b
    decreases |a|, if a == [] then 0 else a[0]
  {
    if a != [] {
      assert b != [] && (a[0] == 0 <==> b[0] == 0) && Digits(a)[1..] == Digits(b)[1..];
      if a[0] == 0 {
        ReadDigits(a[1..], b[1..]);
        assert a == [0] + a[1..] && b == [0] + b[1..];
      } else {
        var a1, b1 := [a[0] - 1] + a[1..], [b[0] - 1] + b[1..];
        ReadDigits(a1, b1);
        assert a1[1..] == a[1..] && b1[1..] == b[1..] && a1[0] == a[0] - 1 && b1[0] == b[0] - 1;
        assert a == [a[0]] + a[1..] && b == [b[0]] + b[1..];
      }
    }
  }

  // ---- the witnesses -------------------------------------------------------------------------------

  function PrintChunk(c: Chunk): bytes {
    Digits(ChunkCode(c))
  }

  ghost function ReadPrinted(p: bytes): Option<StreamingChunk> {
    if exists c :: PrintChunk(c) == p then
      var c :| PrintChunk(c) == p;
      AsStreaming(c)
    else None
  }

  lemma PrintedReadsBack(c: Chunk)
    ensures OneLine(PrintChunk(c)) && ReadPrinted(PrintChunk(c)) == AsStreaming(c)
  {
    hide ChunkCode, Digits, AsStreaming;
    var p := PrintChunk(c);
    assert forall b :: b in p ==> b in {ZERO, ONE};
    assert DONE[0] == 91 && DONE[0] in DONE && DONE[0] !in {ZERO, ONE};
    assert p != DONE;
    forall d | PrintChunk(d) == PrintChunk(c)
      ensures d == c
    {
      ReadDigits(ChunkCode(d), ChunkCode(c));
      ReadChunk(d, c);
    }
  }

  /** There is a faithful codec. */
  lemma FaithfulCodecExists()
    ensures exists codec :: Faithful(codec)
  {
    hide PrintChunk, ReadPrinted;
    var codec := Codec(p => NotJson, c => PrintChunk(c), f => [ZERO], p => ReadPrinted(p));
    forall c: Chunk
      ensures OneLine(codec.printChunk(c)) && codec.readChunk(codec.printChunk(c)) == AsStreaming(c)
    {
      PrintedReadsBack(c);
    }
    SentinelIsNoChunk();
    assert Faithful(codec);
  }

  lemma SentinelIsNoChunk()
    ensures ReadPrinted(DONE).None?
  {
    forall c: Chunk
      ensures PrintChunk(c) != DONE
    {
      PrintedReadsBack(c);
    }
  }

  ghost function ReadRecordBack(p: bytes): Option<AuthFile.Record> {
    if exists r :: Digits(RecordCode(r)) == p then
      var r :| Digits(RecordCode(r)) == p;
      Some(r)
    else None
  }

  /** There is a record format that round trips. */
  lemma FormatExists()
    ensures exists fmt :: AuthFile.RoundTrips(fmt)
  {
    hide RecordCode, Digits;
    var fmt := AuthFile.Format(r => Digits(RecordCode(r)), p => ReadRecordBack(p));
    forall r: AuthFile.Record
      ensures fmt.decode(fmt.encode(r)) == Some(r)
    {
      forall q | Digits(RecordCode(q)) == Digits(RecordCode(r))
        ensures q == r
      {
        ReadDigits(RecordCode(q), RecordCode(r));
        ReadRecord(q, r);
      }
    }
    assert AuthFile.RoundTrips(fmt);
  }
}
