/** Every turn of a conversation goes to the account that answered the one before, over whole runs
    of the router and however the requests overlap or are abandoned. */
module Affinity {
  import opened Sequences
  import opened Accounts
  import opened RouterProtocol
  import Conversation

  // ---- what keeps a turn from its account ----------------------------------------------------

  /** The record keeps requests for `model` from the account at time `now`: a failure of the account,
      or a tier gate it met for the model, recorded less than the cooldown ago. */
  predicate Recent(c: Cooldown, slug: string, model: string, now: nat) {
    && c.slug == slug && c.at <= now < c.at + COOLDOWN
    && (c.gate.Some? ==> c.gate.value == model && model != "")
  }

  ghost predicate Excused(cooldowns: seq<Cooldown>, slug: string, model: string, now: nat) {
    exists c :: c in cooldowns && Recent(c, slug, model, now)
  }

  /** The pool skips an account exactly for the records that excuse it. */
  lemma SkippedExactlyWhenExcused(s: System, slug: string, model: string, now: nat)
    requires PoolEarned(s) && s.clock <= now
    ensures Cooling(s.pool, slug, now) || Gated(s.pool, slug, model, now) <==> Excused(s.cooldowns, slug, model, now)
  {
    hide Earned;
    if Cooling(s.pool, slug, now) {
      var c :| c in s.cooldowns && IsCooldown(c, slug) && s.pool.cooldownUntil[slug] == c.at + COOLDOWN;
      assert Recent(c, slug, model, now);
    }
    if Gated(s.pool, slug, model, now) {
      var k := (slug, model);
      var c :| c in s.cooldowns && IsGate(c, k.0, k.1) && s.pool.modelCooldownUntil[k] == c.at + COOLDOWN;
      assert Recent(c, slug, model, now);
    }
  }

  // ---- the pin a request was looked up with ----------------------------------------------------

  /** The account that was pinned when the request was looked up. */
  function PinBefore(s: System, r: Request): Option<string> {
    if s.hasStore && r.key.Some? && r.lookedUp <= |s.log| && r.key.value in StoreOf(s.log[..r.lookedUp]) then
      Some(StoreOf(s.log[..r.lookedUp])[r.key.value].slug)
    else None
  }

  /** A send of the request to `slug` goes to its pin, unless that was excused when it chose. */
  ghost predicate GoesToPin(s: System, r: Request, slug: string) {
    forall p :: PinBefore(s, r) == Some(p) && slug != p ==> Excused(s.cooldowns, p, r.model, r.chosenAt)
  }

  ghost predicate FollowsPin(s: System, id: nat, r: Request, trace: seq<Event>) {
    && r.lookedUp <= |s.log|
    && match r.phase
       case Arrived => true
       case LookedUp(pin) => pin == PinBefore(s, r)
       case Chosen(a) => GoesToPin(s, r, a.slug)
       case _ => trace != [] ==> trace[0].Sent? && GoesToPin(s, r, trace[0].slug)
  }

  ghost predicate AllFollow(s: System) {
    forall id :: id in s.requests ==> FollowsPin(s, id, s.requests[id], TraceOf(s.log, id))
  }

  /** Later events and records change nothing for a request that does not move. */
  lemma StillFollows(s: System, t: System, id: nat, r: Request, trace: seq<Event>)
    requires FollowsPin(s, id, r, trace) && s.log <= t.log && s.cooldowns <= t.cooldowns && t.hasStore == s.hasStore
    ensures FollowsPin(t, id, r, trace)
  {
    SamePin(s, t, r, r);
    hide PinBefore;
    forall p | Excused(s.cooldowns, p, r.model, r.chosenAt)
      ensures Excused(t.cooldowns, p, r.model, r.chosenAt)
    {
      var c :| c in s.cooldowns && Recent(c, p, r.model, r.chosenAt);
      assert c in t.cooldowns;
    }
  }

  lemma SamePin(s: System, t: System, r: Request, q: Request)
    requires r.lookedUp <= |s.log| && s.log <= t.log && t.hasStore == s.hasStore
    requires q.key == r.key && q.lookedUp == r.lookedUp
    ensures PinBefore(t, q) == PinBefore(s, r)
  {
    assert t.log[..r.lookedUp] == s.log[..r.lookedUp];
  }

  // ---- the steps of one request ------------------------------------------------------------------

  /** A stored pin names an account of the pool. */
  lemma PinIsInPool(s: System, n: nat, key: string)
    requires Inv(s) && n <= |s.log| && key in StoreOf(s.log[..n])
    ensures Find(s.pool.accounts, StoreOf(s.log[..n])[key].slug).Some?
  {
    hide StoreOf, TraceOf, Shape;
    PinHasWriter(s.log[..n], key);
    var pin := StoreOf(s.log[..n])[key];
    var id :| Pinned(id, key, pin) in s.log[..n];
    assert Pinned(id, key, pin) in s.log;
    WriterWasAnswered(s.log, Pinned(id, key, pin));
  }

  lemma LookupFollows(s: System, id: nat, now: nat, attempt: Attempt)
    requires Inv(s) && id in s.requests && s.requests[id].phase.Arrived?
    ensures var t := AdvanceRequest(s, id, now, attempt);
            id in t.requests && FollowsPin(t, id, t.requests[id], TraceOf(t.log, id))
  {
    assert s.store == StoreOf(s.log) && s.log[..|s.log|] == s.log;
    hide Inv, StoreOf, TraceOf;
  }

  lemma ChoiceFollows(s: System, id: nat, now: nat, attempt: Attempt)
    requires Inv(s) && PoolEarned(s) && s.clock <= now && id in s.requests && s.requests[id].phase.LookedUp?
    requires FollowsPin(s, id, s.requests[id], TraceOf(s.log, id))
    ensures var t := AdvanceRequest(s, id, now, attempt);
            id in t.requests && FollowsPin(t, id, t.requests[id], TraceOf(t.log, id))
  {
    var r, t := s.requests[id], AdvanceRequest(s, id, now, attempt);
    var pin := PinBefore(s, r);
    NothingSent(s, id);
    if pin.Some? {
      PinIsInPool(s, r.lookedUp, r.key.value);
      SkippedExactlyWhenExcused(s, pin.value, r.model, now);
      assert Find(s.pool.accounts, pin.value).Some?;
    }
    hide Inv, PoolEarned, StoreOf, TraceOf, Excused, Cooling, Gated, Choice, AdvanceRequest;
    ChoiceIs(s, id, now, attempt);
    SamePin(s, t, r, t.requests[id]);
    assert PinBefore(t, t.requests[id]) == pin;
    hide PinBefore;
    assert TraceOf(t.log, id) == [];
    if t.requests[id].phase.Chosen? {
      var slug := t.requests[id].phase.account.slug;
      assert pin.Some? && slug != pin.value ==> Excused(s.cooldowns, pin.value, r.model, now);
      assert GoesToPin(t, t.requests[id], slug);
    }
  }

  lemma ChoiceIs(s: System, id: nat, now: nat, attempt: Attempt)
    requires id in s.requests && s.requests[id].phase.LookedUp?
    ensures var r, t := s.requests[id], AdvanceRequest(s, id, now, attempt);
            var p := if r.phase.pin.Some? then Accounts.Pinned(s.pool, r.phase.pin.value, r.model, now) else None;
            && t.log == s.log && t.cooldowns == s.cooldowns && t.hasStore == s.hasStore && id in t.requests
            && t.requests[id] == r.(phase := t.requests[id].phase, chosenAt := now)
            && (t.requests[id].phase.Chosen? || t.requests[id].phase.Done?)
            && (p.Some? ==> t.requests[id].phase == Chosen(p.value))
  {
    hide Choice, Accounts.Pinned;
  }

  lemma NothingSent(s: System, id: nat)
    requires Inv(s) && id in s.requests && (s.requests[id].phase.LookedUp? || s.requests[id].phase.Chosen?)
    ensures TraceOf(s.log, id) == []
  {
    hide StoreOf, TraceOf, PinsFollowAnswers;
    assert Shape(s, id, s.requests[id], TraceOf(s.log, id));
  }

  lemma FirstSendFollows(s: System, id: nat, now: nat, attempt: Attempt)
    requires Inv(s) && id in s.requests && s.requests[id].phase.Chosen?
    requires FollowsPin(s, id, s.requests[id], TraceOf(s.log, id))
    ensures var t := AdvanceRequest(s, id, now, attempt);
            id in t.requests && FollowsPin(t, id, t.requests[id], TraceOf(t.log, id))
  {
    hide StoreOf, TraceOf, PinsFollowAnswers, Shape, Classify, AdvanceRequest, Excused, PinBefore;
    var r, t := s.requests[id], AdvanceRequest(s, id, now, attempt);
    NothingSent(s, id);
    var e := Sent(id, r.phase.account.slug, Classify(attempt));
    FirstSendIs(s, id, now, attempt);
    TraceOneMore(s.log, e, id);
    StillFollows(s, t, id, r, []);
    SamePin(s, t, r, t.requests[id]);
    assert TraceOf(t.log, id) == [e];
  }

  lemma FirstSendIs(s: System, id: nat, now: nat, attempt: Attempt)
    requires id in s.requests && s.requests[id].phase.Chosen?
    ensures var r, t := s.requests[id], AdvanceRequest(s, id, now, attempt);
            && t.log == s.log + [Sent(id, r.phase.account.slug, Classify(attempt))]
            && id in t.requests && t.requests[id] == r.(phase := t.requests[id].phase)
            && (t.requests[id].phase.Answered? || t.requests[id].phase.Failed?)
            && t.cooldowns == s.cooldowns && t.hasStore == s.hasStore
  {
    hide Classify;
  }

  lemma SomethingSent(s: System, id: nat)
    requires Inv(s) && id in s.requests
    requires var p := s.requests[id].phase; !p.Arrived? && !p.LookedUp? && !p.Chosen? && !p.Done?
    ensures TraceOf(s.log, id) != []
  {
    hide StoreOf, TraceOf, PinsFollowAnswers;
    assert Shape(s, id, s.requests[id], TraceOf(s.log, id));
  }

  /** From the first send on, the trace only grows at its end. */
  lemma LaterStepFollows(s: System, id: nat, now: nat, attempt: Attempt)
    requires Inv(s) && id in s.requests
    requires var p := s.requests[id].phase; !p.Arrived? && !p.LookedUp? && !p.Chosen? && !p.Done?
    requires FollowsPin(s, id, s.requests[id], TraceOf(s.log, id))
    ensures var t := AdvanceRequest(s, id, now, attempt);
            id in t.requests && FollowsPin(t, id, t.requests[id], TraceOf(t.log, id))
  {
    hide Inv, StoreOf, TraceOf, Excused, PinBefore, AdvanceRequest;
    var r, t, trace := s.requests[id], AdvanceRequest(s, id, now, attempt), TraceOf(s.log, id);
    SomethingSent(s, id);
    LogGrows(s, id, now, attempt);
    LaterPhase(s, id, now, attempt);
    StillFollows(s, t, id, r, trace);
    SamePin(s, t, r, r);
    SamePin(s, t, r, t.requests[id]);
    if t.log != s.log {
      var e :| t.log == s.log + [e] && e.id == id;
      TraceOneMore(s.log, e, id);
    }
    assert TraceOf(t.log, id)[0] == trace[0];
  }

  lemma LaterPhase(s: System, id: nat, now: nat, attempt: Attempt)
    requires id in s.requests
    requires var p := s.requests[id].phase; !p.Arrived? && !p.LookedUp? && !p.Chosen? && !p.Done?
    ensures var t := AdvanceRequest(s, id, now, attempt);
            && id in t.requests && s.cooldowns <= t.cooldowns && t.hasStore == s.hasStore
            && (var p := t.requests[id].phase; !p.Arrived? && !p.LookedUp? && !p.Chosen?)
            && t.requests[id].lookedUp == s.requests[id].lookedUp && t.requests[id].chosenAt == s.requests[id].chosenAt
            && t.requests[id].key == s.requests[id].key && t.requests[id].model == s.requests[id].model
  {
    hide Choice, Classify, Cool;
  }

  // ---- whole runs -----------------------------------------------------------------------------------

  lemma OwnStepFollows(s: System, id: nat, now: nat, attempt: Attempt)
    requires Inv(s) && PoolEarned(s) && s.clock <= now && id in s.requests
    requires FollowsPin(s, id, s.requests[id], TraceOf(s.log, id))
    ensures var t := AdvanceRequest(s, id, now, attempt);
            id in t.requests && FollowsPin(t, id, t.requests[id], TraceOf(t.log, id))
  {
    var p := s.requests[id].phase;
    hide *;
    if p.Arrived? {
      LookupFollows(s, id, now, attempt);
    } else if p.LookedUp? {
      ChoiceFollows(s, id, now, attempt);
    } else if p.Chosen? {
      FirstSendFollows(s, id, now, attempt);
    } else if p.Done? {
      DoneStays(s, id, now, attempt);
    } else {
      LaterStepFollows(s, id, now, attempt);
    }
  }

  lemma StepFollows(s: System, a: Action)
    requires Inv(s) && PoolEarned(s) && AllFollow(s)
    ensures AllFollow(Step(s, a))
  {
    hide Inv, PoolEarned, FollowsPin, TraceOf, AdvanceRequest, Cool;
    var t := Step(s, a);
    if a.Advance? && a.id in s.requests {
      var clock := if a.now > s.clock then a.now else s.clock;
      var u := s.(clock := clock);
      TickKeeps(s, clock);
      LogGrows(u, a.id, clock, a.attempt);
      PoolUnchanged(u, a.id, clock, a.attempt);
      AdvanceFrame(u, a.id, clock, a.attempt);
      forall id | id in t.requests
        ensures FollowsPin(t, id, t.requests[id], TraceOf(t.log, id))
      {
        var trace := TraceOf(s.log, id);
        StillFollows(s, u, id, s.requests[id], trace);
        if id == a.id {
          OwnStepFollows(u, id, clock, a.attempt);
        } else {
          StillFollows(u, t, id, s.requests[id], trace);
          if t.log != s.log {
            var e :| t.log == s.log + [e] && e.id == a.id;
            TraceOneMore(s.log, e, id);
          }
        }
      }
    } else {
      forall id | id in t.requests
        ensures FollowsPin(t, id, t.requests[id], TraceOf(t.log, id))
      {
        if id in s.requests {
          StillFollows(s, t, id, s.requests[id], TraceOf(s.log, id));
        } else {
          JustArrived(t, id, t.requests[id], TraceOf(t.log, id));
        }
      }
    }
  }

  lemma JustArrived(s: System, id: nat, r: Request, trace: seq<Event>)
    requires r.phase.Arrived? && r.lookedUp == 0
    ensures FollowsPin(s, id, r, trace)
  {
  }

  lemma TickKeeps(s: System, clock: nat)
    requires Inv(s) && PoolEarned(s) && s.clock <= clock
    ensures Inv(s.(clock := clock)) && PoolEarned(s.(clock := clock))
  {
    EarnedGrows(s, s.(clock := clock));
    hide StoreOf, PinsFollowAnswers, TraceOf, Shape, PoolEarned;
    var u := s.(clock := clock);
    forall k | k in u.requests
      ensures Shape(u, k, u.requests[k], TraceOf(u.log, k))
    {
      SameShape(s, u, k, u.requests[k], TraceOf(u.log, k));
    }
  }

  lemma {:induction false} RunFollows(s: System, actions: seq<Action>)
    requires Inv(s) && PoolEarned(s) && AllFollow(s)
    ensures Inv(Run(s, actions)) && PoolEarned(Run(s, actions)) && AllFollow(Run(s, actions))
    decreases |actions|
  {
    hide Inv, PoolEarned, AllFollow, Step;
    if actions != [] {
      StepFollows(s, actions[0]);
      StepKeepsInv(s, actions[0]);
      StepKeepsEarned(s, actions[0]);
      RunFollows(Step(s, actions[0]), actions[1..]);
    }
  }

  lemma StartFollows(accounts: seq<Account>, hasStore: bool)
    ensures AllFollow(Start(accounts, hasStore))
  {
  }

  // ---- turns -------------------------------------------------------------------------------------------

  /** The latest write to the pin of the conversation. */
  function LastWrite(log: seq<Event>, key: string): Option<Event> {
    if log == [] then None
    else if (Last(log).Pinned? || Last(log).Unpinned?) && Last(log).key == key then Some(Last(log))
    else LastWrite(Init(log), key)
  }

  lemma {:induction false} StoreIsLastWrite(log: seq<Event>, key: string)
    ensures var e := LastWrite(log, key);
            && (key in StoreOf(log) <==> e.Some? && e.value.Pinned?)
            && (e.Some? ==> e.value in log && (e.value.Pinned? || e.value.Unpinned?) && e.value.key == key)
            && (key in StoreOf(log) ==> StoreOf(log)[key] == e.value.pin)
  {
    if log != [] {
      StoreIsLastWrite(Init(log), key);
    }
  }

  /** The conversation's pin was last written by the turn before the one of request `id` was looked
      up: `e` is that turn's pin. */
  ghost predicate IsTurnAfter(s: System, id: nat, key: string, e: Event) {
    && id in s.requests && s.requests[id].key == Some(key) && s.hasStore && !s.requests[id].phase.Arrived?
    && s.requests[id].lookedUp <= |s.log|
    && LastWrite(s.log[..s.requests[id].lookedUp], key) == Some(e) && e.Pinned?
  }

  lemma PinBeforeTurn(s: System, id: nat, key: string, e: Event)
    requires Inv(s) && IsTurnAfter(s, id, key, e)
    ensures PinBefore(s, s.requests[id]) == Some(e.pin.slug)
    ensures e.id in s.requests && s.requests[e.id].key == Some(key) && Sent(e.id, e.pin.slug, Terminal) in s.log
  {
    var n := s.requests[id].lookedUp;
    StoreIsLastWrite(s.log[..n], key);
    assert e in s.log;
    WriterWasAnswered(s.log, e);
    hide StoreOf, LastWrite, Shape, TraceOf, PinsFollowAnswers;
  }

  /** A turn that ended with an answer has written its pin. */
  lemma AnsweredTurnPins(s: System, id: nat)
    requires Inv(s) && s.hasStore && id in s.requests && s.requests[id].key.Some? && s.requests[id].phase.Done?
    requires s.requests[id].phase.ending.AnsweredBy? || s.requests[id].phase.ending.AnsweredByOther?
    ensures var r := s.requests[id];
            Pinned(id, r.key.value, Pin(r.phase.ending.account.slug, r.model)) in s.log
  {
    hide StoreOf, TraceOf, PinsFollowAnswers;
    var trace := TraceOf(s.log, id);
    assert Shape(s, id, s.requests[id], trace);
    TraceIsLogged(s.log, id, trace[|trace| - 1]);
  }

  /** In every run, whatever else is in flight: the first send of a turn goes to the account that
      answered the turn which last wrote the conversation's pin, unless a failure of that account,
      or a tier gate it met for the turn's model, was recorded less than the cooldown before the
      turn chose. */
  lemma TurnsStick(accounts: seq<Account>, actions: seq<Action>, key: string, id: nat, e: Event)
    requires var s := Run(Start(accounts, true), actions);
             IsTurnAfter(s, id, key, e) && TraceOf(s.log, id) != []
    ensures var s := Run(Start(accounts, true), actions);
            var r, first := s.requests[id], TraceOf(s.log, id)[0];
            && e.id in s.requests && s.requests[e.id].key == Some(key) && Sent(e.id, e.pin.slug, Terminal) in s.log
            && first.Sent? && (first.slug == e.pin.slug || Excused(s.cooldowns, e.pin.slug, r.model, r.chosenAt))
  {
    hide Run, PoolEarned, LastWrite, Excused, PinBefore, IsTurnAfter, TraceOf, Shape, StoreOf, PinsFollowAnswers;
    var s := Run(Start(accounts, true), actions);
    StartHasInv(accounts, true);
    StartFollows(accounts, true);
    RunFollows(Start(accounts, true), actions);
    PinBeforeTurn(s, id, key, e);
    TurnIsLookedUp(s, id, key, e);
    TracedHasSent(s, id);
    assert FollowsPin(s, id, s.requests[id], TraceOf(s.log, id));
  }

  lemma TurnIsLookedUp(s: System, id: nat, key: string, e: Event)
    requires IsTurnAfter(s, id, key, e)
    ensures id in s.requests && !s.requests[id].phase.Arrived?
  {
  }

  lemma TracedHasSent(s: System, id: nat)
    requires Inv(s) && id in s.requests && TraceOf(s.log, id) != []
    ensures !s.requests[id].phase.LookedUp? && !s.requests[id].phase.Chosen?
  {
    if s.requests[id].phase.LookedUp? || s.requests[id].phase.Chosen? {
      NothingSent(s, id);
    }
  }

  /** The same when the turn chooses: it holds the pin, and uses it, drawing no ticket, exactly when
      no such failure or tier gate was recorded less than the cooldown ago. */
  lemma ChoiceSticks(accounts: seq<Account>, actions: seq<Action>, key: string, id: nat, e: Event, now: nat,
                     attempt: Attempt)
    requires var s := Run(Start(accounts, true), actions);
             IsTurnAfter(s, id, key, e) && s.requests[id].phase.LookedUp?
    ensures var s := Run(Start(accounts, true), actions);
            var clock := if now > s.clock then now else s.clock;
            var t := Step(s, Advance(id, now, attempt));
            && (t.ticket == s.ticket <==> !Excused(s.cooldowns, e.pin.slug, s.requests[id].model, clock))
            && (t.ticket == s.ticket ==>
                  id in t.requests && t.requests[id].phase.Chosen? && t.requests[id].phase.account.slug == e.pin.slug)
  {
    hide Run, LastWrite, Excused, TraceOf, Shape, StoreOf, PinsFollowAnswers;
    var s := Run(Start(accounts, true), actions);
    StartHasInv(accounts, true);
    StartFollows(accounts, true);
    RunFollows(Start(accounts, true), actions);
    PinBeforeTurn(s, id, key, e);
    var clock := if now > s.clock then now else s.clock;
    assert FollowsPin(s, id, s.requests[id], TraceOf(s.log, id));
    PinIsInPool(s, s.requests[id].lookedUp, key);
    SkippedExactlyWhenExcused(s, e.pin.slug, s.requests[id].model, clock);
    hide Inv, PoolEarned, Cooling, Gated, Choice;
  }

  // ---- transcripts ---------------------------------------------------------------------------------------

  /** The key the router files a request under. */
  function KeyOf(header: Option<string>, body: Conversation.Body, hash: string -> string): Option<string> {
    var k := Conversation.ResolveConversationKey(header, body, hash);
    if k.Some? then Some(k.value.key) else None
  }

  /** Each turn's transcript continues the one before, and the first has a visible user text. */
  ghost predicate Transcript(bodies: seq<Conversation.Body>) {
    && bodies != [] && Conversation.RawUserText(bodies[0]).Some?
    && forall n :: 0 < n < |bodies| ==> Conversation.Continues(bodies[n - 1], bodies[n])
  }

  /** All turns of a transcript have one key. */
  lemma {:induction false} TranscriptHasOneKey(header: Option<string>, bodies: seq<Conversation.Body>, n: nat,
                                               hash: string -> string)
    requires Transcript(bodies) && n < |bodies|
    ensures Conversation.RawUserText(bodies[n]).Some?
    ensures KeyOf(header, bodies[n], hash) == KeyOf(header, bodies[0], hash)
  {
    if n > 0 {
      hide Conversation.RawUserText, Conversation.Continues, Conversation.ResolveConversationKey;
      TranscriptHasOneKey(header, bodies, n - 1, hash);
      Conversation.KeyIsStable(header, bodies[n - 1], bodies[n], hash);
      Conversation.UserTextSurvives(bodies[n - 1], bodies[n]);
    }
  }

  /** The requests are the turns of a transcript, each filed under the key of its own body. */
  ghost predicate AreTurns(s: System, ids: seq<nat>, header: Option<string>, bodies: seq<Conversation.Body>,
                           hash: string -> string) {
    && Transcript(bodies) && |ids| == |bodies|
    && forall k :: 0 <= k < |ids| ==>
         ids[k] in s.requests && s.requests[ids[k]].key == KeyOf(header, bodies[k], hash)
  }

  lemma TurnsShareTheKey(s: System, ids: seq<nat>, header: Option<string>, bodies: seq<Conversation.Body>,
                         hash: string -> string)
    requires AreTurns(s, ids, header, bodies, hash)
    ensures forall k :: 0 <= k < |ids| ==> s.requests[ids[k]].key == KeyOf(header, bodies[0], hash)
  {
    hide Transcript, KeyOf;
    forall k | 0 <= k < |ids|
      ensures s.requests[ids[k]].key == KeyOf(header, bodies[0], hash)
    {
      TranscriptHasOneKey(header, bodies, k, hash);
    }
  }

  /** Whole-conversation affinity: the turns of a growing transcript, whatever models they name, are
      all filed under one key, so the first send of each goes to the account that answered the turn
      which last wrote that key's pin, unless a failure of that account, or a tier gate it met for
      the turn's model, was recorded less than the cooldown before the turn chose. */
  lemma ConversationSticks(accounts: seq<Account>, actions: seq<Action>, header: Option<string>,
                           bodies: seq<Conversation.Body>, ids: seq<nat>, hash: string -> string, key: string,
                           n: nat, e: Event)
    requires var s := Run(Start(accounts, true), actions);
             && AreTurns(s, ids, header, bodies, hash) && KeyOf(header, bodies[0], hash) == Some(key)
             && n < |ids| && IsTurnAfter(s, ids[n], key, e) && TraceOf(s.log, ids[n]) != []
    ensures var s := Run(Start(accounts, true), actions);
            var r, first := s.requests[ids[n]], TraceOf(s.log, ids[n])[0];
            && (forall k :: 0 <= k < |ids| ==> s.requests[ids[k]].key == Some(key))
            && e.id in s.requests && s.requests[e.id].key == Some(key) && Sent(e.id, e.pin.slug, Terminal) in s.log
            && first.Sent? && (first.slug == e.pin.slug || Excused(s.cooldowns, e.pin.slug, r.model, r.chosenAt))
  {
    var s := Run(Start(accounts, true), actions);
    TurnsShareTheKey(s, ids, header, bodies, hash);
    hide Run, Transcript, Excused, KeyOf, IsTurnAfter, TraceOf;
    TurnsStick(accounts, actions, key, ids[n], e);
  }
}
