/** The buffered path: fold the chunks of a stream into one completion. */
module Aggregation {
  import opened Sequences
  import opened SseReader
  import opened Chunks
  import opened Transformer

  datatype Call = Call(id: string, name: string, arguments: string)

  /** The loop variables of the aggregator. */
  datatype Fold = Fold(responseId: string, model: string, created: int, role: string,
                       content: string, reasoning: string, finish: string,
                       usage: Option<Usage>, calls: map<nat, Call>)

  const NOTHING := Fold("", "", 0, "", "", "", "", None, map[])

  datatype Completion = Completion(id: string, created: int, model: string, role: string,
                                   content: string, calls: seq<Call>, reasoning: Option<string>,
                                   finish: string, usage: Option<Usage>)

  function NonEmpty(s: Option<string>, otherwise: string): string {
    if s.Some? && s.value != "" then s.value else otherwise
  }

  function AddToolDelta(calls: map<nat, Call>, t: ToolDelta): map<nat, Call> {
    var c := if t.index in calls then calls[t.index] else Call("", "", "");
    calls[t.index := Call(NonEmpty(t.id, c.id), NonEmpty(t.name, c.name), c.arguments + t.arguments.GetOr(""))]
  }

  function AddToolDeltas(calls: map<nat, Call>, ts: seq<ToolDelta>): map<nat, Call> {
    if ts == [] then calls else AddToolDelta(AddToolDeltas(calls, Init(ts)), Last(ts))
  }

  function AddChoice(f: Fold, c: Choice): Fold {
    f.(role := if f.role == "" then NonEmpty(c.delta.role, "") else f.role,
       content := f.content + c.delta.content.GetOr(""),
       reasoning := f.reasoning + c.delta.reasoning.GetOr(""),
       finish := NonEmpty(c.finish, f.finish),
       calls := AddToolDeltas(f.calls, c.delta.toolCalls))
  }

  function AddChoices(f: Fold, cs: seq<Choice>): Fold {
    if cs == [] then f else AddChoice(AddChoices(f, Init(cs)), Last(cs))
  }

  /** A frame that does not parse as a chunk is skipped. */
  function AddFrame(f: Fold, frame: Option<StreamingChunk>): Fold {
    if frame.None? then f
    else
      var c := frame.value;
      AddChoices(f.(responseId := if f.responseId == "" then c.id else f.responseId,
                    model := if f.model == "" then c.model else f.model,
                    created := if f.created == 0 then c.created else f.created,
                    usage := if c.usage.Some? then c.usage else f.usage),
                 c.choices)
  }

  function AddFrames(codec: Codec, f: Fold, frames: seq<bytes>): Fold {
    if frames == [] then f else AddFrame(AddFrames(codec, f, Init(frames)), codec.readChunk(Last(frames)))
  }

  lemma {:induction false} AddFramesAppend(codec: Codec, f: Fold, a: seq<bytes>, b: seq<bytes>)
    ensures AddFrames(codec, f, a + b) == AddFrames(codec, AddFrames(codec, f, a), b)
    decreases |b|
  {
    if b == [] {
      assert a + b == a;
    } else {
      assert Init(a + b) == a + Init(b) && Last(a + b) == Last(b);
      AddFramesAppend(codec, f, a, Init(b));
    }
  }

  ghost predicate IsLeast(k: nat, keys: set<nat>) {
    k in keys && forall j :: j in keys ==> k <= j
  }

  lemma LeastExists(keys: set<nat>)
    requires keys != {}
    ensures exists k :: IsLeast(k, keys)
  {
    var k :| k in keys;
    if !IsLeast(k, keys) {
      var below := set j | j in keys && j < k;
      var j :| j in keys && j < k;
      assert j in below && k !in below && below < keys;
      LeastExists(below);
      var l :| IsLeast(l, below);
      assert forall j :: j in keys ==> j in below || k <= j;
      assert IsLeast(l, keys);
    }
  }

  /** The calls by increasing index. */
  ghost function InOrder(calls: map<nat, Call>): seq<Call>
    decreases calls.Keys
  {
    if calls.Keys == {} then []
    else
      LeastExists(calls.Keys);
      var k :| IsLeast(k, calls.Keys);
      [calls[k]] + InOrder(calls - {k})
  }

  /** The completion built from a finished fold; `model` is the caller's and `now` the clock's. */
  ghost function Complete(f: Fold, model: string, now: int): Completion {
    Completion(
      if f.responseId == "" then "chatcmpl-buffered" else f.responseId,
      if f.created == 0 then now else f.created,
      if f.model == "" then model else f.model,
      if f.role == "" then "assistant" else f.role,
      f.content,
      InOrder(f.calls),
      if f.reasoning == "" then None else Some(f.reasoning),
      if f.finish == "" then "stop" else f.finish,
      f.usage)
  }

  // ---- what the loop over the events computes --------------------------------

  datatype Progress = Progress(state: State, fold: Fold, failed: bool)

  /** The aggregator after `payloads`: it stops at the first rejected one, and `[DONE]` does
      not stop it. */
  function Consume(codec: Codec, model: string, payloads: seq<bytes>): Progress {
    if payloads == [] then Progress(START, NOTHING, false)
    else
      var p := Consume(codec, model, Init(payloads));
      var i := Interpret(codec, Last(payloads));
      var a := Answer(codec, model, p.state, i);
      if p.failed then p
      else Progress(Next(p.state, i),
                    if a.Emitted? then AddFrames(codec, p.fold, a.frames) else p.fold,
                    a.Rejected?)
  }

  datatype Outcome = Success(completion: Completion) | ReadFailed | TransformFailed

  method AddFramesTo(codec: Codec, f: Fold, frames: seq<bytes>) returns (r: Fold)
    ensures r == AddFrames(codec, f, frames)
  {
    r := f;
    for i := 0 to |frames|
      invariant r == AddFrames(codec, f, frames[..i])
    {
      assert Init(frames[..i + 1]) == frames[..i];
      var parsed := codec.readChunk(frames[i]);
      if parsed.None? {
        continue;
      }
      var chunk := parsed.value;
      if r.responseId == "" && chunk.id != "" {
        r := r.(responseId := chunk.id);
      }
      if r.model == "" && chunk.model != "" {
        r := r.(model := chunk.model);
      }
      if r.created == 0 && chunk.created != 0 {
        r := r.(created := chunk.created);
      }
      if chunk.usage.Some? {
        r := r.(usage := chunk.usage);
      }
      r := AddChoicesTo(r, chunk.choices);
    }
    assert frames[..|frames|] == frames;
  }

  lemma ToolDeltasTake(calls: map<nat, Call>, deltas: seq<ToolDelta>, j: nat)
    requires j < |deltas|
    ensures AddToolDeltas(calls, deltas[..j + 1]) == AddToolDelta(AddToolDeltas(calls, deltas[..j]), deltas[j])
  {
    assert Init(deltas[..j + 1]) == deltas[..j];
  }

  lemma ChoicesTake(f: Fold, choices: seq<Choice>, i: nat)
    requires i < |choices|
    ensures AddChoices(f, choices[..i + 1]) == AddChoice(AddChoices(f, choices[..i]), choices[i])
  {
    assert Init(choices[..i + 1]) == choices[..i];
  }

  method AddToolDeltasTo(calls: map<nat, Call>, deltas: seq<ToolDelta>) returns (r: map<nat, Call>)
    ensures r == AddToolDeltas(calls, deltas)
  {
    assert AddToolDeltas(calls, deltas[..0]) == calls;
    hide AddToolDeltas;
    r := calls;
    for j := 0 to |deltas|
      invariant r == AddToolDeltas(calls, deltas[..j])
    {
      ToolDeltasTake(calls, deltas, j);
      var t := deltas[j];
      var acc := if t.index in r then r[t.index] else Call("", "", "");
      assert acc.arguments + "" == acc.arguments;
      if t.id.Some? && t.id.value != "" {
        acc := acc.(id := t.id.value);
      }
      if t.name.Some? && t.name.value != "" {
        acc := acc.(name := t.name.value);
      }
      if t.arguments.Some? {
        acc := acc.(arguments := acc.arguments + t.arguments.value);
      }
      r := r[t.index := acc];
    }
    assert deltas[..|deltas|] == deltas;
  }

  method AddChoicesTo(f: Fold, choices: seq<Choice>) returns (r: Fold)
    ensures r == AddChoices(f, choices)
  {
    assert AddChoices(f, choices[..0]) == f;
    hide AddChoices, AddToolDeltas;
    r := f;
    for i := 0 to |choices|
      invariant r == AddChoices(f, choices[..i])
    {
      ChoicesTake(f, choices, i);
      assert r.content + "" == r.content && r.reasoning + "" == r.reasoning;
      var choice := choices[i];
      if r.role == "" && choice.delta.role.Some? && choice.delta.role.value != "" {
        r := r.(role := choice.delta.role.value);
      }
      if choice.delta.content.Some? {
        r := r.(content := r.content + choice.delta.content.value);
      }
      if choice.delta.reasoning.Some? {
        r := r.(reasoning := r.reasoning + choice.delta.reasoning.value);
      }
      if choice.finish.Some? && choice.finish.value != "" {
        r := r.(finish := choice.finish.value);
      }
      var calls := AddToolDeltasTo(r.calls, choice.delta.toolCalls);
      r := r.(calls := calls);
    }
    assert choices[..|choices|] == choices;
  }

  method CallsInOrder(calls: map<nat, Call>) returns (list: seq<Call>)
    ensures list == InOrder(calls)
  {
    list := [];
    var rest := calls;
    while rest.Keys != {}
      invariant list + InOrder(rest) == InOrder(calls)
      decreases rest.Keys
    {
      LeastExists(rest.Keys);
      var k :| k in rest.Keys && forall j :: j in rest.Keys ==> k <= j;
      assert IsLeast(k, rest.Keys) && forall j :: IsLeast(j, rest.Keys) ==> j == k;
      list := list + [rest[k]];
      rest := rest - {k};
    }
  }

  lemma StartOfRun(codec: Codec, model: string)
    ensures Consume(codec, model, []) == Progress(START, NOTHING, false) && Body([]) == ([], Open)
  {
  }

  lemma ConsumeOneMore(codec: Codec, model: string, payloads: seq<bytes>, payload: bytes)
    ensures var p := Consume(codec, model, payloads);
            var i := Interpret(codec, payload);
            var a := Answer(codec, model, p.state, i);
            !p.failed ==>
              Consume(codec, model, payloads + [payload])
              == Progress(Next(p.state, i),
                          if a.Emitted? then AddFrames(codec, p.fold, a.frames) else p.fold,
                          a.Rejected?)
  {
    Snoc(payloads, payload);
  }

  lemma {:induction false} ConsumeStops(codec: Codec, model: string, a: seq<bytes>, b: seq<bytes>)
    requires Consume(codec, model, a).failed
    ensures Consume(codec, model, a + b) == Consume(codec, model, a)
    decreases |b|
  {
    hide Consume;
    if b == [] {
      assert a + b == a;
    } else {
      var front, payload := a + Init(b), Last(b);
      assert a + b == front + [payload];
      ConsumeStops(codec, model, a, Init(b));
      StoppedStays(codec, model, front, payload);
    }
  }

  lemma StoppedStays(codec: Codec, model: string, payloads: seq<bytes>, payload: bytes)
    requires Consume(codec, model, payloads).failed
    ensures Consume(codec, model, payloads + [payload]) == Consume(codec, model, payloads)
  {
    hide Interpret, Answer, Next, AddFrames;
    Snoc(payloads, payload);
  }

  /** The outcome for a whole body and the way it ended. */
  ghost function Buffered(codec: Codec, body: (bytes, End), model: string, now: int): Outcome {
    var p := Consume(codec, EffectiveModel(model), EventsUpTo(body.0, body.1));
    if p.failed then TransformFailed
    else if body.1.Failed? then ReadFailed
    else Success(Complete(p.fold, model, now))
  }

  lemma BufferedBy(codec: Codec, body: (bytes, End), model: string, now: int)
    ensures var p := Consume(codec, EffectiveModel(model), EventsUpTo(body.0, body.1));
            Buffered(codec, body, model, now)
            == if p.failed then TransformFailed
               else if body.1.Failed? then ReadFailed
               else Success(Complete(p.fold, model, now))
  {
  }

  method CompleteFold(f: Fold, model: string, now: int) returns (c: Completion)
    ensures c == Complete(f, model, now)
  {
    var calls := CallsInOrder(f.calls);
    var id := if f.responseId == "" then "chatcmpl-buffered" else f.responseId;
    var created := if f.created == 0 then now else f.created;
    var m := if f.model == "" then model else f.model;
    var role := if f.role == "" then "assistant" else f.role;
    var finish := if f.finish == "" then "stop" else f.finish;
    var reasoning := if f.reasoning == "" then None else Some(f.reasoning);
    c := Completion(id, created, m, role, f.content, calls, reasoning, finish, f.usage);
  }

  /** One event of the aggregator's loop. */
  method ConsumeEvent(transformer: SSETransformer, ghost before: seq<bytes>, event: bytes, fold: Fold)
    returns (r: Fold, failed: bool)
    requires transformer.Valid()
    requires Consume(transformer.codec, transformer.model, before) == Progress(transformer.Abstraction(), fold, false)
    modifies transformer
    ensures transformer.Valid()
    ensures Consume(transformer.codec, transformer.model, before + [event])
         == Progress(transformer.Abstraction(), r, failed)
  {
    hide Consume, Interpret, Answer, Next, AddFrames;
    ConsumeOneMore(transformer.codec, transformer.model, before, event);
    var result := transformer.Transform(event);
    r, failed := fold, false;
    match result {
      case Rejected => failed := true;
      case Emitted(frames) => r := AddFramesTo(transformer.codec, fold, frames);
      // the scan goes on after the sentinel
      case Done =>
      case Swallowed =>
    }
  }

  /** Aggregate an upstream body, delivered in any pieces, into one completion. */
  method BufferChatCompletion(codec: Codec, arrivals: seq<Arrival>, model: string, now: int) returns (r: Outcome)
    requires !Body(arrivals).1.Open?
    ensures r == Buffered(codec, Body(arrivals), model, now)
  {
    hide *;
    BufferedBy(codec, Body(arrivals), model, now);
    StartOfRun(codec, EffectiveModel(model));
    var reader := new SseEventReader();
    var transformer := new SSETransformer(codec, model);
    var fold := NOTHING;
    var i := 0;
    while true
      invariant fresh(reader) && fresh(transformer) && reader.Valid() && transformer.Valid()
      invariant i <= |arrivals| && (reader.Arrived(), reader.end) == Body(arrivals[..i])
      invariant Consume(codec, transformer.model, reader.delivered) == Progress(transformer.Abstraction(), fold, false)
      decreases |arrivals| - i, reader.Steps()
    {
      assert arrivals == arrivals[..i] + arrivals[i..] && arrivals[..|arrivals|] == arrivals;
      BodyGrows(arrivals[..i], arrivals[i..]);
      EventsGrow(arrivals[..i], arrivals[i..]);
      ghost var before := reader.delivered;
      var poll := reader.NextEvent();
      reader.DeliveredIsPrefix();
      match poll {
        case Finished =>
          var completion := CompleteFold(fold, model, now);
          return Success(completion);
        case ReadError => return ReadFailed;
        case NotReady =>
          reader.Receive(arrivals[i], arrivals[..i]);
          assert arrivals[..i] + [arrivals[i]] == arrivals[..i + 1];
          i := i + 1;
        case Ready(event) =>
          var failed;
          fold, failed := ConsumeEvent(transformer, before, event, fold);
          if failed {
            ghost var all := EventsUpTo(Body(arrivals).0, Body(arrivals).1);
            ConsumeStops(codec, transformer.model, reader.delivered, all[|reader.delivered|..]);
            assert all == reader.delivered + all[|reader.delivered|..];
            return TransformFailed;
          }
      }
    }
  }
}
