/** What aggregation makes of the tool calls, and exactly which event runs it conserves. */
module ToolCalls {
  import opened Sequences
  import opened Chunks
  import opened Transformer
  import opened ChunkGrammar
  import opened Aggregation
  import opened Conservation
  import opened UpstreamPayloads
  import SseReader

  // ---- what the events say ------------------------------------------------------

  /** The distinct announced items, by first announcement. */
  function AnnouncedItems(evs: seq<Envelope>): seq<string> {
    if evs == [] then [] else WithItem(AnnouncedItems(Init(evs)), Last(evs).event)
  }

  /** The items announced since the latest `response.created`, by first announcement there. */
  function CurrentItems(evs: seq<Envelope>): seq<string> {
    if evs == [] || Last(evs).event.Created? then [] else WithItem(CurrentItems(Init(evs)), Last(evs).event)
  }

  function WithItem(items: seq<string>, e: Event): seq<string> {
    var t := Announcement(e);
    if t.Some? && t.value.item !in items then items + [t.value.item] else items
  }

  function LatestAnnouncement(evs: seq<Envelope>, item: string): Option<Tool> {
    if evs == [] then None
    else
      var t := Announcement(Last(evs).event);
      if t.Some? && t.value.item == item then t else LatestAnnouncement(Init(evs), item)
  }

  predicate IsArgumentsFor(e: Event, item: string) {
    e.ArgumentsDelta? && e.args.Some? && e.args.value.0 == item
  }

  /** The argument deltas for `item` that came after its announcement. */
  function ArgumentDeltas(evs: seq<Envelope>, item: string): seq<string> {
    if evs == [] then []
    else
      var e := Last(evs).event;
      ArgumentDeltas(Init(evs), item)
      + (if IsArgumentsFor(e, item) && item in AnnouncedItems(Init(evs)) then [e.args.value.1] else [])
  }

  /** The call that `item` stands for. */
  function CallOf(evs: seq<Envelope>, item: string): Call {
    var t := LatestAnnouncement(evs, item).GetOr(Tool(item, "", ""));
    Call(t.callId, t.name, Concat(ArgumentDeltas(evs, item)))
  }

  ghost predicate AllReadable(evs: seq<Envelope>) {
    forall v :: v in evs ==> Readable(v)
  }

  ghost predicate DistinctCallIds(evs: seq<Envelope>) {
    forall v, w :: v in evs && w in evs && Announcement(v.event).Some? && Announcement(w.event).Some?
                   && Announcement(v.event).value.callId == Announcement(w.event).value.callId ==>
      Announcement(v.event).value.item == Announcement(w.event).value.item
  }

  /** The calls of the fold are exactly the announced items, in order, with their arguments. */
  ghost predicate Conserved(model: string, evs: seq<Envelope>) {
    var calls := InOrder(FoldOf(model, evs).calls);
    && |calls| == |AnnouncedItems(evs)|
    && forall k :: 0 <= k < |calls| ==> calls[k] == CallOf(evs, AnnouncedItems(evs)[k])
  }

  /** Arguments for an item that was announced, but not since the latest `response.created`. */
  predicate Stray(evs: seq<Envelope>, e: Event) {
    && e.ArgumentsDelta? && e.args.Some? && e.args.value.1 != ""
    && e.args.value.0 in AnnouncedItems(evs) && e.args.value.0 !in CurrentItems(evs)
  }

  /** Every response announces its items in the order of the run so far, and no arguments stray. */
  predicate OnTrack(evs: seq<Envelope>) {
    evs != [] ==>
      && OnTrack(Init(evs))
      && CurrentItems(evs) <= AnnouncedItems(evs)
      && !Stray(Init(evs), Last(evs).event)
  }

  // ---- the state and the calls ----------------------------------------------------

  ghost predicate Lists(tools: seq<Tool>, items: seq<string>) {
    && DistinctItems(tools) && |tools| == |items|
    && forall k :: 0 <= k < |tools| ==> tools[k].item == items[k]
  }

  ghost predicate Distinct(items: seq<string>) {
    forall i, j :: 0 <= i < j < |items| ==> items[i] != items[j]
  }

  ghost predicate Covers(calls: map<nat, Call>, n: nat) {
    forall k: nat :: k in calls <==> k < n
  }

  /** Call k is that of the k-th announced item. */
  ghost predicate Collects(calls: map<nat, Call>, evs: seq<Envelope>) {
    && Covers(calls, |AnnouncedItems(evs)|)
    && forall k: nat :: k < |AnnouncedItems(evs)| ==> calls[k] == CallOf(evs, AnnouncedItems(evs)[k])
  }

  lemma {:induction false} AnnouncedAreDistinct(evs: seq<Envelope>)
    ensures Distinct(AnnouncedItems(evs))
  {
    if evs != [] {
      AnnouncedAreDistinct(Init(evs));
    }
  }

  /** The transformer's tools are the current items, in every run. */
  lemma {:induction false} ToolsAreCurrent(evs: seq<Envelope>)
    ensures Lists(StateAfter(evs).tools, CurrentItems(evs))
  {
    if evs != [] {
      hide Position, Announce;
      ToolsAreCurrent(Init(evs));
      var s, e := StateAfter(Init(evs)), Last(evs).event;
      if Announcement(e).Some? {
        AnnouncePosition(s.tools, Announcement(e).value);
      }
    }
  }

  lemma {:induction false} AnnouncedHasLatest(evs: seq<Envelope>, item: string)
    ensures item in AnnouncedItems(evs) <==> LatestAnnouncement(evs, item).Some?
    ensures LatestAnnouncement(evs, item).Some? ==>
              LatestAnnouncement(evs, item).value.item == item
              && exists v :: v in evs && Announcement(v.event) == LatestAnnouncement(evs, item)
  {
    if evs != [] {
      AnnouncedHasLatest(Init(evs), item);
      if Announcement(Last(evs).event).Some? && Announcement(Last(evs).event).value.item == item {
        assert Last(evs) in evs;
      } else if LatestAnnouncement(evs, item).Some? {
        var v :| v in Init(evs) && Announcement(v.event) == LatestAnnouncement(evs, item);
        assert v in evs;
      }
    }
  }

  lemma {:induction false} NoArgumentsBefore(evs: seq<Envelope>, item: string)
    requires item !in AnnouncedItems(evs)
    ensures ArgumentDeltas(evs, item) == []
  {
    if evs != [] {
      NoArgumentsBefore(Init(evs), item);
    }
  }

  /** One more event and the call of `item`. */
  lemma CallOfOneMore(evs: seq<Envelope>, v: Envelope, item: string)
    ensures var t := Announcement(v.event);
            var c := CallOf(evs, item);
            CallOf(evs + [v], item)
            == if t.Some? && t.value.item == item then Call(t.value.callId, t.value.name, c.arguments)
               else if IsArgumentsFor(v.event, item) && item in AnnouncedItems(evs) then
                 c.(arguments := c.arguments + v.event.args.value.1)
               else c
  {
    hide AnnouncedItems;
    Snoc(evs, v);
    var deltas := ArgumentDeltas(evs, item);
    assert deltas + [] == deltas;
    if IsArgumentsFor(v.event, item) {
      Snoc(deltas, v.event.args.value.1);
    }
  }

  lemma ItemsOneMore(evs: seq<Envelope>, v: Envelope)
    ensures AnnouncedItems(evs + [v]) == WithItem(AnnouncedItems(evs), v.event)
    ensures CurrentItems(evs + [v]) == if v.event.Created? then [] else WithItem(CurrentItems(evs), v.event)
  {
    Snoc(evs, v);
  }

  /** The call that an announcement adds or renames. */
  lemma AnnouncedCall(calls: map<nat, Call>, s: State, e: Event, items: seq<string>) returns (i: nat)
    requires Lists(s.tools, items) && Announcement(e).Some?
    ensures var t := Announcement(e).value;
            && e.ItemAdded?
            && (if t.item in items then i < |items| && items[i] == t.item else i == |items|)
            && AddCall(calls, s, e)
               == calls[i := Call(t.callId, t.name, if i in calls then calls[i].arguments else "")]
  {
    hide Position, Announce;
    var t := Announcement(e).value;
    AnnouncePosition(s.tools, t);
    i := Position(Announce(s.tools, t), t.item).value;
    var c := if i in calls then calls[i] else Call("", "", "");
    assert c.arguments + "" == c.arguments;
  }

  lemma ArgumentsCall(calls: map<nat, Call>, s: State, e: Event, items: seq<string>) returns (i: nat)
    requires Lists(s.tools, items) && e.ArgumentsDelta? && e.args.Some? && e.args.value.0 in items
    requires forall k: nat :: k < |items| ==> k in calls
    ensures i < |items| && items[i] == e.args.value.0
    ensures AddCall(calls, s, e) == calls[i := calls[i].(arguments := calls[i].arguments + e.args.value.1)]
  {
    var k :| 0 <= k < |items| && items[k] == e.args.value.0;
    PositionIsIndex(s.tools, k);
    i := k;
  }

  lemma NoCall(calls: map<nat, Call>, s: State, e: Event, items: seq<string>)
    requires Lists(s.tools, items) && Announcement(e).None?
    requires e.ArgumentsDelta? && e.args.Some? ==> e.args.value.0 !in items
    ensures AddCall(calls, s, e) == calls
  {
    hide Position;
  }

  /** The calls collect the announced items, and the current ones are listed in the state. */
  ghost predicate Tracks(calls: map<nat, Call>, s: State, evs: seq<Envelope>) {
    && Collects(calls, evs) && Lists(s.tools, CurrentItems(evs))
    && CurrentItems(evs) <= AnnouncedItems(evs) && Distinct(AnnouncedItems(evs))
  }

  /** An announcement gives its item the announced id and name and changes no other call. */
  lemma CallsAfterAnnouncement(evs: seq<Envelope>, v: Envelope)
    requires Announcement(v.event).Some?
    ensures var t := Announcement(v.event).value;
            forall item ::
              CallOf(evs + [v], item)
              == if item == t.item then Call(t.callId, t.name, CallOf(evs, item).arguments) else CallOf(evs, item)
  {
    hide CallOf;
    forall item
      ensures var t := Announcement(v.event).value;
              CallOf(evs + [v], item)
              == if item == t.item then Call(t.callId, t.name, CallOf(evs, item).arguments) else CallOf(evs, item)
    {
      CallOfOneMore(evs, v, item);
    }
  }

  /** An announcement that lands on its item's own index keeps the calls collected. */
  lemma AnnouncedOnTrack(calls: map<nat, Call>, s: State, evs: seq<Envelope>, v: Envelope)
    requires Tracks(calls, s, evs) && Announcement(v.event).Some?
    requires CurrentItems(evs + [v]) <= AnnouncedItems(evs + [v])
    ensures Collects(AddCall(calls, s, v.event), evs + [v])
  {
    hide CallOf, AddCall, CurrentItems, AnnouncedItems, Announcement;
    var t, all, now := Announcement(v.event).value, AnnouncedItems(evs), CurrentItems(evs);
    var i := AnnouncedCall(calls, s, v.event, now);
    ItemsOneMore(evs, v);
    CallsAfterAnnouncement(evs, v);
    if t.item !in now {
      OneMorePrefix(now, all, t.item);
      FreshCall(evs, t.item);
    }
    var w := AnnouncedItems(evs + [v]);
    assert i < |w| && w[i] == t.item && Distinct(w);
  }

  /** One that lands on another index adds no call, and with distinct call ids it spoils one. */
  lemma AnnouncedOffTrack(calls: map<nat, Call>, s: State, evs: seq<Envelope>, v: Envelope)
    requires Tracks(calls, s, evs) && Announcement(v.event).Some?
    requires !(CurrentItems(evs + [v]) <= AnnouncedItems(evs + [v]))
    ensures Covers(AddCall(calls, s, v.event), |AnnouncedItems(evs)|)
    ensures DistinctCallIds(evs + [v]) ==> !Collects(AddCall(calls, s, v.event), evs + [v])
  {
    hide CallOf, AddCall, CurrentItems, AnnouncedItems, Announcement, DistinctCallIds;
    var t, all, now := Announcement(v.event).value, AnnouncedItems(evs), CurrentItems(evs);
    var i := AnnouncedCall(calls, s, v.event, now);
    ItemsOneMore(evs, v);
    CallsAfterAnnouncement(evs, v);
    OneMorePrefix(now, all, t.item);
    if t.item !in all {
      assert |all| !in AddCall(calls, s, v.event);
    } else if DistinctCallIds(evs + [v]) {
      OtherCallId(evs, v, all[i]);
    }
  }

  lemma OneMorePrefix(now: seq<string>, all: seq<string>, item: string)
    requires now <= all && item !in now
    ensures item !in all ==> (now + [item] <= all + [item] <==> |now| == |all|)
    ensures item in all ==> |now| < |all| && (now + [item] <= all <==> all[|now|] == item)
  {
    assert all == now + all[|now|..];
    if item in all {
      assert now + [all[|now|]] == all[..|now| + 1];
    } else if now + [item] <= all + [item] {
      assert (all + [item])[|now|] == (now + [item])[|now|];
    }
  }

  lemma FreshCall(evs: seq<Envelope>, item: string)
    ensures item !in AnnouncedItems(evs) ==> CallOf(evs, item).arguments == ""
  {
    if item !in AnnouncedItems(evs) {
      NoArgumentsBefore(evs, item);
    }
  }

  lemma OtherCallId(evs: seq<Envelope>, v: Envelope, item: string)
    requires DistinctCallIds(evs + [v]) && item in AnnouncedItems(evs)
    requires Announcement(v.event).Some? && Announcement(v.event).value.item != item
    ensures CallOf(evs, item).id != Announcement(v.event).value.callId
  {
    hide AnnouncedItems, LatestAnnouncement, ArgumentDeltas;
    AnnouncedHasLatest(evs, item);
    var w :| w in evs && Announcement(w.event) == LatestAnnouncement(evs, item);
    assert w in evs + [v] && v in evs + [v];
  }

  /** Any other event keeps them collected exactly when it brings no stray arguments. */
  lemma AfterOther(calls: map<nat, Call>, s: State, evs: seq<Envelope>, v: Envelope)
    requires Tracks(calls, s, evs) && Announcement(v.event).None?
    ensures exists n :: Covers(AddCall(calls, s, v.event), n)
    ensures CurrentItems(evs + [v]) <= AnnouncedItems(evs + [v])
    ensures Collects(AddCall(calls, s, v.event), evs + [v]) <==> !Stray(evs, v.event)
  {
    hide CallOf, AddCall, CurrentItems, AnnouncedItems, ArgumentDeltas, LatestAnnouncement;
    var e, all, now := v.event, AnnouncedItems(evs), CurrentItems(evs);
    ItemsOneMore(evs, v);
    forall item
      ensures CallOf(evs + [v], item)
           == if IsArgumentsFor(e, item) && item in all then
                CallOf(evs, item).(arguments := CallOf(evs, item).arguments + e.args.value.1)
              else CallOf(evs, item)
    {
      CallOfOneMore(evs, v, item);
    }
    if e.ArgumentsDelta? && e.args.Some? && e.args.value.0 in now {
      var i := ArgumentsCall(calls, s, e, now);
      assert Covers(AddCall(calls, s, e), |all|);
    } else {
      NoCall(calls, s, e, now);
      assert Covers(calls, |all|);
      if e.ArgumentsDelta? && e.args.Some? && e.args.value.0 in all {
        var k :| 0 <= k < |all| && all[k] == e.args.value.0;
        var arguments := CallOf(evs, all[k]).arguments;
        assert arguments + "" == arguments;
        assert |arguments + e.args.value.1| == |arguments| + |e.args.value.1|;
      }
    }
  }

  lemma FoldStep(model: string, evs: seq<Envelope>, v: Envelope)
    requires Readable(v)
    ensures StateAfter(evs + [v]) == After(StateAfter(evs), v.event)
    ensures FoldOf(model, evs + [v]).calls == AddCall(FoldOf(model, evs).calls, StateAfter(evs), v.event)
  {
    Snoc(evs, v);
    EventEffect(FoldOf(model, evs), model, StateAfter(evs), v);
    AddChunksAppend(NOTHING, Stream(model, evs), Replies(model, StateAfter(evs), v));
  }

  /** The step from a run on track: whether the calls stay collected is whether it stays on track. */
  lemma Step(model: string, evs: seq<Envelope>, v: Envelope)
    requires Readable(v) && OnTrack(evs) && Collects(FoldOf(model, evs).calls, evs)
    ensures exists n :: Covers(FoldOf(model, evs + [v]).calls, n)
    ensures OnTrack(evs + [v]) ==> Collects(FoldOf(model, evs + [v]).calls, evs + [v])
    ensures DistinctCallIds(evs + [v]) && Collects(FoldOf(model, evs + [v]).calls, evs + [v]) ==> OnTrack(evs + [v])
  {
    hide FoldOf, AddCall, CallOf, CurrentItems, AnnouncedItems, StateAfter, DistinctCallIds;
    Snoc(evs, v);
    FoldStep(model, evs, v);
    var calls, s := FoldOf(model, evs).calls, StateAfter(evs);
    ToolsAreCurrent(evs);
    AnnouncedAreDistinct(evs);
    OnTrackPrefix(evs);
    if Announcement(v.event).None? {
      AfterOther(calls, s, evs, v);
    } else if CurrentItems(evs + [v]) <= AnnouncedItems(evs + [v]) {
      AnnouncedOnTrack(calls, s, evs, v);
      assert Covers(AddCall(calls, s, v.event), |AnnouncedItems(evs + [v])|);
    } else {
      AnnouncedOffTrack(calls, s, evs, v);
    }
  }

  lemma OnTrackPrefix(evs: seq<Envelope>)
    requires OnTrack(evs)
    ensures CurrentItems(evs) <= AnnouncedItems(evs)
  {
  }

  // ---- conserved exactly on track ----------------------------------------------------

  lemma {:induction false} CallsFollowAnnouncements(model: string, evs: seq<Envelope>)
    requires AllReadable(evs) && OnTrack(evs)
    ensures Collects(FoldOf(model, evs).calls, evs)
  {
    if evs == [] {
      EmptyFold(model);
    } else {
      hide *;
      Front(evs);
      CallsFollowAnnouncements(model, Init(evs));
      Step(model, Init(evs), Last(evs));
    }
  }

  lemma Front(evs: seq<Envelope>)
    requires evs != []
    ensures evs == Init(evs) + [Last(evs)]
    ensures AllReadable(evs) ==> AllReadable(Init(evs)) && Readable(Last(evs))
    ensures DistinctCallIds(evs) ==> DistinctCallIds(Init(evs))
    ensures OnTrack(evs) ==> OnTrack(Init(evs))
  {
    hide AnnouncedItems, CurrentItems, Stray;
    assert Last(evs) in evs;
  }

  lemma InOrderFirst(calls: map<nat, Call>, lo: nat)
    requires IsLeast(lo, calls.Keys)
    ensures InOrder(calls) == [calls[lo]] + InOrder(calls - {lo})
  {
    LeastExists(calls.Keys);
    assert forall k :: IsLeast(k, calls.Keys) ==> k == lo;
  }

  lemma {:induction false} InOrderOfRange(calls: map<nat, Call>, lo: nat, hi: nat)
    requires lo <= hi && forall k: nat :: k in calls <==> lo <= k < hi
    ensures |InOrder(calls)| == hi - lo
    ensures forall k :: lo <= k < hi ==> InOrder(calls)[k - lo] == calls[k]
    decreases hi - lo
  {
    hide InOrder;
    if lo < hi {
      var rest := calls - {lo};
      assert lo in calls.Keys;
      InOrderFirst(calls, lo);
      InOrderOfRange(rest, lo + 1, hi);
      forall k | lo < k < hi
        ensures InOrder(calls)[k - lo] == calls[k]
      {
        assert InOrder(rest)[k - (lo + 1)] == rest[k];
      }
    } else {
      InOrderOfNone(calls);
    }
  }

  lemma InOrderOfNone(calls: map<nat, Call>)
    requires forall k: nat :: k !in calls
    ensures InOrder(calls) == []
  {
    assert calls.Keys == {};
  }

  lemma ConservedMeansCollected(model: string, evs: seq<Envelope>, n: nat)
    requires Covers(FoldOf(model, evs).calls, n)
    ensures Conserved(model, evs) <==> Collects(FoldOf(model, evs).calls, evs)
  {
    hide FoldOf, InOrder, AnnouncedItems, CallOf;
    var calls := FoldOf(model, evs).calls;
    InOrderOfRange(calls, 0, n);
    assert forall k :: 0 <= k < n ==> InOrder(calls)[k - 0] == calls[k];
    if Collects(calls, evs) {
      assert n == |AnnouncedItems(evs)| by {
        SameCover(calls, n, |AnnouncedItems(evs)|);
      }
    }
  }

  lemma SameCover(calls: map<nat, Call>, m: nat, n: nat)
    requires Covers(calls, m) && Covers(calls, n)
    ensures m == n
  {
    assert (m in calls) == (n in calls);
  }

  /** The tool calls are conserved at every point of a run exactly when every response of the run
      announces its items in the order of the run so far and no arguments stray. */
  lemma {:induction false} ConservedExactlyOnTrack(model: string, evs: seq<Envelope>)
    requires AllReadable(evs) && DistinctCallIds(evs)
    ensures (forall n :: 0 <= n <= |evs| ==> Conserved(model, evs[..n])) <==> OnTrack(evs)
  {
    hide Conserved, FoldOf, Collects;
    if evs == [] {
      assert evs[..0] == [];
      CallsFollowAnnouncements(model, evs);
      EmptyFold(model);
      ConservedMeansCollected(model, evs, 0);
    } else {
      var front, v := Init(evs), Last(evs);
      assert v in evs && evs == front + [v] && evs[..|evs|] == evs;
      assert forall n :: 0 <= n <= |front| ==> front[..n] == evs[..n];
      ConservedExactlyOnTrack(model, front);
      if OnTrack(front) {
        CallsFollowAnnouncements(model, front);
        Step(model, front, v);
        var n :| Covers(FoldOf(model, evs).calls, n);
        ConservedMeansCollected(model, evs, n);
      }
    }
  }

  lemma EmptyFold(model: string)
    ensures FoldOf(model, []).calls == map[] && Covers(FoldOf(model, []).calls, 0)
  {
  }

  /** No `response.created` once a tool call was announced. */
  predicate NoRestart(evs: seq<Envelope>) {
    evs != [] ==>
      NoRestart(Init(evs)) && (Last(evs).event.Created? ==> AnnouncedItems(Init(evs)) == [])
  }

  /** A run with one response is on track. */
  lemma {:induction false} NoRestartIsOnTrack(evs: seq<Envelope>)
    requires NoRestart(evs)
    ensures OnTrack(evs) && CurrentItems(evs) == AnnouncedItems(evs)
  {
    if evs != [] {
      NoRestartIsOnTrack(Init(evs));
    }
  }

  /** Entry k of the completion's tool calls is the k-th distinct announced item, under its latest
      id and name, and its arguments are exactly the deltas for that item after its announcement. */
  lemma ToolCallsAreConserved(codec: Codec, body: (bytes, SseReader.End), model: string, now: int)
    requires Faithful(codec) && !body.1.Failed?
    requires forall p :: p in SseReader.EventsUpTo(body.0, body.1) ==> !Unusable(codec, p)
    requires var evs := TypedEvents(codec, SseReader.EventsUpTo(body.0, body.1)); AllReadable(evs) && OnTrack(evs)
    ensures Buffered(codec, body, model, now).Success?
    ensures var evs := TypedEvents(codec, SseReader.EventsUpTo(body.0, body.1));
            var calls := Buffered(codec, body, model, now).completion.calls;
            && |calls| == |AnnouncedItems(evs)|
            && forall k :: 0 <= k < |calls| ==>
                 var item := AnnouncedItems(evs)[k];
                 && LatestAnnouncement(evs, item).Some?
                 && calls[k].id == LatestAnnouncement(evs, item).value.callId
                 && calls[k].name == LatestAnnouncement(evs, item).value.name
                 && calls[k].arguments == Concat(ArgumentDeltas(evs, item))
  {
    hide Consume, FoldOf, AnnouncedItems, LatestAnnouncement, ArgumentDeltas, Concat, InOrder, TypedEvents, OnTrack;
    hide SseReader.EventsUpTo, EffectiveModel, Unusable;
    var payloads := SseReader.EventsUpTo(body.0, body.1);
    var evs := TypedEvents(codec, payloads);
    ConsumeFailsIff(codec, EffectiveModel(model), payloads);
    ConsumeFollowsTheRun(codec, EffectiveModel(model), payloads);
    CallsFollowAnnouncements(EffectiveModel(model), evs);
    ConservedMeansCollected(EffectiveModel(model), evs, |AnnouncedItems(evs)|);
    forall k | 0 <= k < |AnnouncedItems(evs)|
      ensures LatestAnnouncement(evs, AnnouncedItems(evs)[k]).Some?
    {
      AnnouncedHasLatest(evs, AnnouncedItems(evs)[k]);
    }
  }

  // ---- what a restart loses -----------------------------------------------------------

  /** Right after a `response.created`, with calls already collected, every announcement of a new
      item overwrites the id and name of the call at index 0: one more item, no more calls. */
  lemma RestartLosesCall(model: string, evs: seq<Envelope>, v: Envelope)
    requires CurrentItems(evs) == [] && 0 in FoldOf(model, evs).calls && Readable(v)
    requires Announcement(v.event).Some? && Announcement(v.event).value.item !in AnnouncedItems(evs)
    ensures var t, calls := Announcement(v.event).value, FoldOf(model, evs).calls;
            && FoldOf(model, evs + [v]).calls == calls[0 := Call(t.callId, t.name, calls[0].arguments)]
            && AnnouncedItems(evs + [v]) == AnnouncedItems(evs) + [t.item]
  {
    hide FoldOf, AddCall;
    ToolsAreCurrent(evs);
    FoldStep(model, evs, v);
    ItemsOneMore(evs, v);
    var _ := AnnouncedCall(FoldOf(model, evs).calls, StateAfter(evs), v.event, []);
  }

  function Added(id: string): Envelope {
    Envelope(Some(1), ItemAdded(Some(Some(Item("function_call", id, id, "run")))))
  }

  const RESTART := Envelope(Some(2), Created(None))

  lemma OneCallThenRestart(model: string)
    ensures var evs := [] + [Added("a")] + [RESTART];
            && AnnouncedItems(evs) == ["a"] && CurrentItems(evs) == []
            && FoldOf(model, evs).calls == map[0 := Call("a", "run", "")]
  {
    hide FoldOf, AddCall, AnnouncedItems, CurrentItems, StateAfter;
    var one := [] + [Added("a")];
    NothingYet(model);
    ItemsOneMore([], Added("a"));
    ItemsOneMore(one, RESTART);
    FoldStep(model, [], Added("a"));
    FoldStep(model, one, RESTART);
    var _ := AnnouncedCall(map[], START, Added("a").event, []);
    ToolsAreCurrent(one);
    NoCall(FoldOf(model, one).calls, StateAfter(one), RESTART.event, CurrentItems(one));
  }

  lemma NothingYet(model: string)
    ensures FoldOf(model, []).calls == map[] && StateAfter([]) == START
    ensures AnnouncedItems([]) == CurrentItems([]) == []
  {
  }

  /** Two items on either side of a `response.created` end up as one call. */
  lemma RestartMergesCalls(model: string)
    ensures var evs := [] + [Added("a")] + [RESTART] + [Added("b")];
            && AllReadable(evs) && DistinctCallIds(evs) && !OnTrack(evs)
            && AnnouncedItems(evs) == ["a", "b"]
            && FoldOf(model, evs).calls == map[0 := Call("b", "run", "")]
  {
    hide FoldOf, OnTrack, AnnouncedItems, CurrentItems;
    var two := [] + [Added("a")] + [RESTART];
    OneCallThenRestart(model);
    RestartLosesCall(model, two, Added("b"));
    ItemsOneMore(two, Added("b"));
    var now, all := CurrentItems(two + [Added("b")]), AnnouncedItems(two + [Added("b")]);
    assert now == ["b"] && all == ["a", "b"] && now[0] != all[0];
    OffTrack(two + [Added("b")]);
  }

  lemma OffTrack(evs: seq<Envelope>)
    requires !(CurrentItems(evs) <= AnnouncedItems(evs))
    ensures !OnTrack(evs)
  {
  }
}
