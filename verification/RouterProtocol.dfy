/** Many requests interleaving over one account pool and one pin store: each request is looked
    up, sent, retried at most once on another account, and pinned or unpinned. */
module RouterProtocol {
  import opened Sequences
  import opened Accounts

  datatype Pin = Pin(slug: string, model: string)

  /** One attempt against an account's pod: no connection, or a response of which a 400 may carry
      the tier-gate marker. */
  datatype Attempt = ConnectionFailed | Responded(status: nat, marked: bool)

  datatype Verdict = Terminal | Retry(tierGate: bool, connected: bool)

  function Classify(a: Attempt): Verdict {
    match a
    case ConnectionFailed => Retry(false, false)
    case Responded(status, marked) =>
      if status == 400 then (if marked then Retry(true, true) else Terminal)
      else if status == 429 || 500 <= status < 600 then Retry(false, true)
      else Terminal
  }

  /** How a request ended. The last named account's response goes to the client, or the first one's after
      a second attempt that did not connect. */
  datatype Ending =
    | AnsweredBy(account: Account)
    | AnsweredByOther(first: Account, account: Account)
    | NoOther(account: Account)
    | BothFailed(first: Account, account: Account)
    | EmptyPool

  datatype Phase =
    | Arrived
    | LookedUp(pin: Option<string>)
    | Chosen(account: Account)
    | Answered(account: Account)                      // the pin is to be written
    | Failed(account: Account, tierGate: bool)        // the cooldown is to be recorded
    | Cooled(account: Account)                        // the pin is to be cleared
    | Cleared(account: Account)                       // another account is to be picked
    | Retrying(first: Account, account: Account)
    | OtherAnswered(first: Account, account: Account)
    | OtherFailed(first: Account, account: Account, tierGate: bool)
    | Done(ending: Ending)

  /** `lookedUp` is the length of the log when the pin was looked up, `chosenAt` the time of the
      first choice. */
  datatype Request = Request(key: Option<string>, model: string, phase: Phase, lookedUp: nat, chosenAt: nat)

  /** A recorded failure: request `id` met it with account `slug` at `at`, and it cools the whole
      account or gates it for one model. */
  datatype Cooldown = Cooldown(id: nat, slug: string, gate: Option<string>, at: nat)

  /** What the log records: sends with their verdict, and writes to the store. */
  datatype Event =
    | Sent(id: nat, slug: string, verdict: Verdict)
    | Pinned(id: nat, key: string, pin: Pin)
    | Unpinned(id: nat, key: string)

  datatype System = System(pool: View, ticket: nat, hasStore: bool, store: map<string, Pin>,
                           requests: map<nat, Request>, clock: nat, log: seq<Event>, cooldowns: seq<Cooldown>)

  datatype Action =
    | Arrive(id: nat, key: Option<string>, model: string)
    | Advance(id: nat, now: nat, attempt: Attempt)

  function Start(accounts: seq<Account>, hasStore: bool): System {
    System(View(accounts, map[], map[]), 0, hasStore, map[], map[], 0, [], [])
  }

  function Put(s: System, id: nat, slug: string): System
    requires id in s.requests
  {
    var r := s.requests[id];
    if s.hasStore && r.key.Some? then
      var pin := Pin(slug, r.model);
      s.(store := s.store[r.key.value := pin], log := s.log + [Pinned(id, r.key.value, pin)])
    else s
  }

  function Clear(s: System, id: nat): System
    requires id in s.requests
  {
    var r := s.requests[id];
    if s.hasStore && r.key.Some? then
      s.(store := s.store - {r.key.value}, log := s.log + [Unpinned(id, r.key.value)])
    else s
  }

  function Enter(s: System, id: nat, phase: Phase): System
    requires id in s.requests
  {
    s.(requests := s.requests[id := s.requests[id].(phase := phase)])
  }

  function Send(s: System, id: nat, slug: string, verdict: Verdict): System {
    s.(log := s.log + [Sent(id, slug, verdict)])
  }

  function LookUp(s: System, id: nat, pin: Option<string>): System
    requires id in s.requests
  {
    s.(requests := s.requests[id := s.requests[id].(phase := LookedUp(pin), lookedUp := |s.log|)])
  }

  function Choose(s: System, id: nat, phase: Phase, now: nat): System
    requires id in s.requests
  {
    s.(requests := s.requests[id := s.requests[id].(phase := phase, chosenAt := now)])
  }

  /** The pool after request `id` met a failure of `slug`. */
  function Record(s: System, id: nat, slug: string, tierGate: bool, now: nat): System
    requires id in s.requests
  {
    var model := s.requests[id].model;
    s.(pool := Cool(s.pool, slug, model, tierGate, now),
       cooldowns := s.cooldowns + [Cooldown(id, slug, if tierGate then Some(model) else None, now)])
  }

  /** The next atomic step of request `id`, at time `now`; `attempt` is what a send meets. */
  function AdvanceRequest(s: System, id: nat, now: nat, attempt: Attempt): System
    requires id in s.requests
  {
    var r := s.requests[id];
    var verdict := Classify(attempt);
    match r.phase
    case Arrived =>
      var found := s.hasStore && r.key.Some? && r.key.value in s.store;
      LookUp(s, id, if found then Some(s.store[r.key.value].slug) else None)
    case LookedUp(pin) =>
      var pinned := if pin.Some? then Accounts.Pinned(s.pool, pin.value, r.model, now) else None;
      var picked := Choice(s.pool, s.ticket, None, r.model, now);
      if pinned.Some? then Choose(s, id, Chosen(pinned.value), now)
      else Choose(s.(ticket := s.ticket + 1), id, if picked.Some? then Chosen(picked.value) else Done(EmptyPool), now)
    case Chosen(a) =>
      Enter(Send(s, id, a.slug, verdict), id, if verdict.Terminal? then Answered(a) else Failed(a, verdict.tierGate))
    case Answered(a) =>
      Enter(Put(s, id, a.slug), id, Done(AnsweredBy(a)))
    case Failed(a, tierGate) =>
      Enter(Record(s, id, a.slug, tierGate, now), id, Cooled(a))
    case Cooled(a) =>
      Enter(Clear(s, id), id, Cleared(a))
    case Cleared(a) =>
      var other := Choice(s.pool, s.ticket, Some(a.slug), r.model, now);
      Enter(s.(ticket := s.ticket + 1), id,
            if other.Some? && other.value.slug != a.slug then Retrying(a, other.value) else Done(NoOther(a)))
    case Retrying(a, b) =>
      Enter(Send(s, id, b.slug, verdict), id,
            if verdict.Terminal? then OtherAnswered(a, b)
            else if verdict.connected then OtherFailed(a, b, verdict.tierGate)
            else Done(BothFailed(a, b)))
    case OtherAnswered(a, b) =>
      Enter(Put(s, id, b.slug), id, Done(AnsweredByOther(a, b)))
    case OtherFailed(a, b, tierGate) =>
      Enter(Record(s, id, b.slug, tierGate, now), id, Done(BothFailed(a, b)))
    case Done(_) => s
  }

  /** One action; the clock never runs backwards. An action that is not possible does nothing. */
  function Step(s: System, a: Action): System {
    match a
    case Arrive(id, key, model) =>
      if id in s.requests then s else s.(requests := s.requests[id := Request(key, model, Arrived, 0, 0)])
    case Advance(id, now, attempt) =>
      if id !in s.requests then s
      else
        var clock := if now > s.clock then now else s.clock;
        AdvanceRequest(s.(clock := clock), id, clock, attempt)
  }

  function Run(s: System, actions: seq<Action>): System
    decreases |actions|
  {
    if actions == [] then s else Run(Step(s, actions[0]), actions[1..])
  }

  // ---- what every interleaving keeps ---------------------------------------------

  function TraceOf(log: seq<Event>, id: nat): seq<Event> {
    if log == [] then []
    else TraceOf(Init(log), id) + (if Last(log).id == id then [Last(log)] else [])
  }

  function Write(m: map<string, Pin>, e: Event): map<string, Pin> {
    if e.Pinned? then m[e.key := e.pin] else if e.Unpinned? then m - {e.key} else m
  }

  /** The store is what the log's last write for each key says. */
  function StoreOf(log: seq<Event>): map<string, Pin> {
    if log == [] then map[] else Write(StoreOf(Init(log)), Last(log))
  }

  /** A pin is written only after its account gave that request a terminal response. */
  ghost predicate PinsFollowAnswers(log: seq<Event>) {
    log != [] ==>
      && PinsFollowAnswers(Init(log))
      && (Last(log).Pinned? ==> Sent(Last(log).id, Last(log).pin.slug, Terminal) in Init(log))
  }

  predicate IsRetry(e: Event, id: nat, a: Account) {
    e.Sent? && e.id == id && e.slug == a.slug && e.verdict.Retry?
  }

  predicate IsAnswer(e: Event, id: nat, a: Account) {
    e == Sent(id, a.slug, Terminal)
  }

  /** A send takes two log entries when the store is written after it, else one. */
  function Width(hasStore: bool, r: Request): nat {
    if hasStore && r.key.Some? then 2 else 1
  }

  /** From position `k`, the trace has a failed send of `a` and the clearing of the pin. */
  predicate FailedFrom(hasStore: bool, id: nat, r: Request, a: Account, trace: seq<Event>, k: nat) {
    && |trace| >= k + Width(hasStore, r) && IsRetry(trace[k], id, a)
    && (hasStore && r.key.Some? ==> trace[k + 1] == Unpinned(id, r.key.value))
  }

  /** From position `k`, the trace is an answer of `a` and the writing of its pin. */
  predicate AnsweredFrom(hasStore: bool, id: nat, r: Request, a: Account, trace: seq<Event>, k: nat) {
    && |trace| == k + Width(hasStore, r) && IsAnswer(trace[k], id, a)
    && (hasStore && r.key.Some? ==> trace[k + 1] == Pinned(id, r.key.value, Pin(a.slug, r.model)))
  }

  /** The whole trace of a request in each phase. */
  predicate Shape(s: System, id: nat, r: Request, trace: seq<Event>) {
    var k := Width(s.hasStore, r);
    match r.phase
    case Arrived => trace == []
    case LookedUp(_) => trace == []
    case Chosen(a) => trace == [] && a in s.pool.accounts
    case Answered(a) => |trace| == 1 && IsAnswer(trace[0], id, a) && a in s.pool.accounts
    case Failed(a, gate) =>
      |trace| == 1 && IsRetry(trace[0], id, a) && trace[0].verdict.tierGate == gate && a in s.pool.accounts
    case Cooled(a) => |trace| == 1 && IsRetry(trace[0], id, a) && a in s.pool.accounts
    case Cleared(a) => |trace| == k && FailedFrom(s.hasStore, id, r, a, trace, 0) && a in s.pool.accounts
    case Retrying(a, b) =>
      |trace| == k && FailedFrom(s.hasStore, id, r, a, trace, 0) && a.slug != b.slug && b in s.pool.accounts
    case OtherAnswered(a, b) =>
      && |trace| == k + 1 && FailedFrom(s.hasStore, id, r, a, trace, 0) && a.slug != b.slug && b in s.pool.accounts
      && IsAnswer(trace[k], id, b)
    case OtherFailed(a, b, gate) =>
      && |trace| == k + 1 && FailedFrom(s.hasStore, id, r, a, trace, 0) && a.slug != b.slug
      && IsRetry(trace[k], id, b) && trace[k].verdict.tierGate == gate
    case Done(AnsweredBy(a)) => AnsweredFrom(s.hasStore, id, r, a, trace, 0)
    case Done(AnsweredByOther(a, b)) =>
      FailedFrom(s.hasStore, id, r, a, trace, 0) && a.slug != b.slug && AnsweredFrom(s.hasStore, id, r, b, trace, k)
    case Done(NoOther(a)) => |trace| == k && FailedFrom(s.hasStore, id, r, a, trace, 0)
    case Done(BothFailed(a, b)) =>
      && |trace| == k + 1 && FailedFrom(s.hasStore, id, r, a, trace, 0) && a.slug != b.slug
      && IsRetry(trace[k], id, b)
    case Done(EmptyPool) => trace == [] && s.pool.accounts == []
  }

  ghost predicate Inv(s: System) {
    && s.store == StoreOf(s.log)
    && PinsFollowAnswers(s.log)
    && (forall id :: id in s.requests ==> Shape(s, id, s.requests[id], TraceOf(s.log, id)))
    && (forall e :: e in s.log ==> e.id in s.requests)
    && (forall e :: e in s.log && e.Sent? ==> exists a :: a in s.pool.accounts && a.slug == e.slug)
    && (forall e :: e in s.log && e.Pinned? ==> s.requests[e.id].key == Some(e.key))
  }

  /** One atomic step of request `id` that logs at most `e` keeps the invariant if the request's
      own trace fits its new phase. */
  lemma RequestStepKeepsInv(s: System, t: System, id: nat, e: Option<Event>)
    requires Inv(s) && id in s.requests && id in t.requests
    requires t.requests == s.requests[id := t.requests[id]] && t.requests[id].key == s.requests[id].key
    requires t.pool.accounts == s.pool.accounts && t.hasStore == s.hasStore
    requires t.log == if e.Some? then s.log + [e.value] else s.log
    requires e.Some? ==> e.value.id == id
    requires e.Some? && e.value.Sent? ==> exists a :: a in s.pool.accounts && a.slug == e.value.slug
    requires e.Some? && e.value.Pinned? ==>
               s.requests[id].key == Some(e.value.key) && Sent(id, e.value.pin.slug, Terminal) in s.log
    requires t.store == StoreOf(t.log)
    requires Shape(t, id, t.requests[id], TraceOf(s.log, id) + (if e.Some? then [e.value] else []))
    ensures Inv(t)
  {
    hide Shape, TraceOf, PinsFollowAnswers, StoreOf;
    if e.Some? {
      PinsOneMore(s.log, e.value);
    }
    assert TraceOf(s.log, id) + [] == TraceOf(s.log, id);
    forall k | k in t.requests
      ensures Shape(t, k, t.requests[k], TraceOf(t.log, k))
    {
      if e.Some? {
        TraceOneMore(s.log, e.value, k);
      }
      if k != id {
        SameShape(s, t, k, t.requests[k], TraceOf(s.log, k));
      }
    }
  }

  lemma TraceOneMore(log: seq<Event>, e: Event, id: nat)
    ensures TraceOf(log + [e], id) == if e.id == id then TraceOf(log, id) + [e] else TraceOf(log, id)
  {
    Snoc(log, e);
    assert TraceOf(log, id) + [] == TraceOf(log, id);
  }

  lemma PinsOneMore(log: seq<Event>, e: Event)
    ensures PinsFollowAnswers(log + [e])
       <==> PinsFollowAnswers(log) && (e.Pinned? ==> Sent(e.id, e.pin.slug, Terminal) in log)
  {
    Snoc(log, e);
  }

  lemma SameShape(s: System, t: System, id: nat, r: Request, trace: seq<Event>)
    requires Shape(s, id, r, trace) && t.pool.accounts == s.pool.accounts && t.hasStore == s.hasStore
    ensures Shape(t, id, r, trace)
  {
  }

  lemma {:induction false} TraceIsLogged(log: seq<Event>, id: nat, e: Event)
    requires e in TraceOf(log, id)
    ensures e in log
  {
    if Last(log) != e {
      TraceIsLogged(Init(log), id, e);
    }
  }

  lemma StoreAfter(log: seq<Event>, e: Event)
    ensures StoreOf(log + [e]) == Write(StoreOf(log), e)
  {
    Snoc(log, e);
  }

  lemma PickedIsInPool(v: View, ticket: nat, exclude: Option<string>, model: string, now: nat)
    ensures var r := Choice(v, ticket, exclude, model, now);
            if v.accounts == [] then r.None? else r.Some? && r.value in v.accounts
  {
    if v.accounts != [] {
      PickIsTotalAndRanked(v, ticket, exclude, model, now);
    } else {
      FirstOfIsWanted(v.accounts, ticket, 0, HealthyOnes(v, exclude, model, now));
      FirstOfIsWanted(v.accounts, ticket, 0, PermittedOnes(v, exclude, model, now));
    }
  }

  /** Looking up, choosing, cooling: steps that write nothing to the log. */
  lemma SilentShape(s: System, id: nat, now: nat, attempt: Attempt, trace: seq<Event>)
    requires id in s.requests && Shape(s, id, s.requests[id], trace)
    requires var p := s.requests[id].phase; p.Arrived? || p.LookedUp? || p.Failed? || p.Cleared? || p.OtherFailed?
    ensures var t := AdvanceRequest(s, id, now, attempt);
            && id in t.requests && Shape(t, id, t.requests[id], trace)
            && t.log == s.log && t.store == s.store
  {
    hide Choice, Accounts.Pinned, Cool, Classify;
    var r := s.requests[id];
    PickedIsInPool(s.pool, s.ticket, None, r.model, now);
    if r.phase.LookedUp? && r.phase.pin.Some? {
      PinnedIsInPool(s.pool, r.phase.pin.value, r.model, now);
    }
    if r.phase.Cleared? {
      PickedIsInPool(s.pool, s.ticket, Some(r.phase.account.slug), r.model, now);
    }
    CoolKeepsAccounts(s.pool, r.model, now);
  }

  lemma SilentStepKeepsInv(s: System, id: nat, now: nat, attempt: Attempt)
    requires Inv(s) && id in s.requests
    requires var p := s.requests[id].phase; p.Arrived? || p.LookedUp? || p.Failed? || p.Cleared? || p.OtherFailed?
    ensures Inv(AdvanceRequest(s, id, now, attempt))
  {
    hide StoreOf, TraceOf, PinsFollowAnswers, AdvanceRequest, Shape;
    var trace := TraceOf(s.log, id);
    SilentShape(s, id, now, attempt, trace);
    AdvanceFrame(s, id, now, attempt);
    assert trace + [] == trace;
    RequestStepKeepsInv(s, AdvanceRequest(s, id, now, attempt), id, None);
  }

  lemma DoneStays(s: System, id: nat, now: nat, attempt: Attempt)
    requires id in s.requests && s.requests[id].phase.Done?
    ensures AdvanceRequest(s, id, now, attempt) == s
  {
  }

  lemma PinnedIsInPool(v: View, slug: string, model: string, now: nat)
    ensures var r := Accounts.Pinned(v, slug, model, now); r.Some? ==> r.value in v.accounts
  {
  }

  lemma CoolKeepsAccounts(v: View, model: string, now: nat)
    ensures forall slug, g :: Cool(v, slug, model, g, now).accounts == v.accounts
  {
  }

  lemma SendKeepsInv(s: System, id: nat, now: nat, attempt: Attempt)
    requires Inv(s) && id in s.requests
    requires s.requests[id].phase.Chosen? || s.requests[id].phase.Retrying?
    ensures Inv(AdvanceRequest(s, id, now, attempt))
  {
    hide StoreOf, TraceOf, PinsFollowAnswers, Classify;
    var r, t := s.requests[id], AdvanceRequest(s, id, now, attempt);
    var e := Sent(id, r.phase.account.slug, Classify(attempt));
    var trace := TraceOf(s.log, id);
    StoreAfter(s.log, e);
    assert Shape(t, id, t.requests[id], trace + [e]);
    RequestStepKeepsInv(s, t, id, Some(e));
  }

  /** Writing to the store, if there is one and the request has a key. */
  lemma StoreShape(s: System, id: nat, now: nat, attempt: Attempt, trace: seq<Event>)
    requires id in s.requests && Shape(s, id, s.requests[id], trace)
    requires var p := s.requests[id].phase; p.Answered? || p.Cooled? || p.OtherAnswered?
    ensures var r, t := s.requests[id], AdvanceRequest(s, id, now, attempt);
            id in t.requests
            && if s.hasStore && r.key.Some? then
                 var e := StoreEvent(id, r);
                 && t.log == s.log + [e] && t.store == Write(s.store, e) && Shape(t, id, t.requests[id], trace + [e])
                 && (e.Pinned? ==> Sent(id, e.pin.slug, Terminal) in trace)
               else t.log == s.log && t.store == s.store && Shape(t, id, t.requests[id], trace)
  {
  }

  function StoreEvent(id: nat, r: Request): Event
    requires r.key.Some? && (r.phase.Answered? || r.phase.Cooled? || r.phase.OtherAnswered?)
  {
    if r.phase.Cooled? then Unpinned(id, r.key.value) else Pinned(id, r.key.value, Pin(r.phase.account.slug, r.model))
  }

  lemma StoreStepKeepsInv(s: System, id: nat, now: nat, attempt: Attempt)
    requires Inv(s) && id in s.requests
    requires var p := s.requests[id].phase; p.Answered? || p.Cooled? || p.OtherAnswered?
    ensures Inv(AdvanceRequest(s, id, now, attempt))
  {
    hide StoreOf, TraceOf, PinsFollowAnswers, AdvanceRequest, Shape;
    var r, t := s.requests[id], AdvanceRequest(s, id, now, attempt);
    var trace := TraceOf(s.log, id);
    StoreShape(s, id, now, attempt, trace);
    AdvanceFrame(s, id, now, attempt);
    if s.hasStore && r.key.Some? {
      var e := StoreEvent(id, r);
      StoreAfter(s.log, e);
      if e.Pinned? {
        TraceIsLogged(s.log, id, Sent(id, e.pin.slug, Terminal));
      }
      RequestStepKeepsInv(s, t, id, Some(e));
    } else {
      assert trace + [] == trace;
      RequestStepKeepsInv(s, t, id, None);
    }
  }

  lemma StepKeepsInv(s: System, a: Action)
    requires Inv(s)
    ensures Inv(Step(s, a))
  {
    hide StoreOf, PinsFollowAnswers, AdvanceRequest, Shape;
    match a
    case Arrive(id, key, model) =>
      if id !in s.requests {
        var t := Step(s, a);
        NoTrace(s.log, id);
        Fresh(t, id, key, model);
        forall k | k in t.requests
          ensures Shape(t, k, t.requests[k], TraceOf(t.log, k))
        {
          if k != id {
            SameShape(s, t, k, t.requests[k], TraceOf(t.log, k));
          }
        }
      }
    case Advance(id, now, attempt) =>
      if id in s.requests {
        var clock := if now > s.clock then now else s.clock;
        var u := s.(clock := clock);
        forall k | k in u.requests
          ensures Shape(u, k, u.requests[k], TraceOf(u.log, k))
        {
          SameShape(s, u, k, u.requests[k], TraceOf(u.log, k));
        }
        var p := s.requests[id].phase;
        if p.Chosen? || p.Retrying? {
          SendKeepsInv(u, id, clock, attempt);
        } else if p.Answered? || p.Cooled? || p.OtherAnswered? {
          StoreStepKeepsInv(u, id, clock, attempt);
        } else if p.Done? {
          DoneStays(u, id, clock, attempt);
        } else {
          SilentStepKeepsInv(u, id, clock, attempt);
        }
      }
  }

  lemma Fresh(s: System, id: nat, key: Option<string>, model: string)
    ensures Shape(s, id, Request(key, model, Arrived, 0, 0), [])
  {
  }

  lemma {:induction false} NoTrace(log: seq<Event>, id: nat)
    requires forall e :: e in log ==> e.id != id
    ensures TraceOf(log, id) == []
  {
    if log != [] {
      assert Last(log) in log;
      NoTrace(Init(log), id);
    }
  }

  lemma {:induction false} RunKeepsInv(s: System, actions: seq<Action>)
    requires Inv(s)
    ensures Inv(Run(s, actions))
    decreases |actions|
  {
    if actions != [] {
      StepKeepsInv(s, actions[0]);
      RunKeepsInv(Step(s, actions[0]), actions[1..]);
    }
  }

  lemma StartHasInv(accounts: seq<Account>, hasStore: bool)
    ensures Inv(Start(accounts, hasStore)) && PoolEarned(Start(accounts, hasStore))
  {
  }

  // ---- pins and retries --------------------------------------------------------------

  lemma {:induction false} PinHasWriter(log: seq<Event>, key: string)
    requires key in StoreOf(log)
    ensures exists id :: Pinned(id, key, StoreOf(log)[key]) in log
  {
    var e := Last(log);
    if e.Pinned? && e.key == key {
      assert Pinned(e.id, key, StoreOf(log)[key]) in log;
    } else {
      PinHasWriter(Init(log), key);
      var id :| Pinned(id, key, StoreOf(Init(log))[key]) in Init(log);
      assert Pinned(id, key, StoreOf(log)[key]) in log;
    }
  }

  lemma {:induction false} WriterWasAnswered(log: seq<Event>, e: Event)
    requires PinsFollowAnswers(log) && e in log && e.Pinned?
    ensures Sent(e.id, e.pin.slug, Terminal) in log
  {
    if e != Last(log) {
      WriterWasAnswered(Init(log), e);
    }
  }

  /** In every interleaving, a stored pin names a pool account that gave a terminal response to
      a request of that conversation. */
  lemma PinsAreEarned(accounts: seq<Account>, hasStore: bool, actions: seq<Action>, key: string)
    requires key in Run(Start(accounts, hasStore), actions).store
    ensures var s := Run(Start(accounts, hasStore), actions);
            && (exists a :: a in accounts && a.slug == s.store[key].slug)
            && (exists id ::
                  id in s.requests && s.requests[id].key == Some(key) && Sent(id, s.store[key].slug, Terminal) in s.log)
  {
    hide StoreOf, PinsFollowAnswers, Shape, TraceOf;
    var s := Run(Start(accounts, hasStore), actions);
    StartHasInv(accounts, hasStore);
    RunKeepsInv(Start(accounts, hasStore), actions);
    PoolStays(Start(accounts, hasStore), actions);
    PinHasWriter(s.log, key);
    var id :| Pinned(id, key, s.store[key]) in s.log;
    WriterWasAnswered(s.log, Pinned(id, key, s.store[key]));
  }

  /** A step changes only the phase of its own request. */
  lemma AdvanceFrame(s: System, id: nat, now: nat, attempt: Attempt)
    requires id in s.requests
    ensures var t := AdvanceRequest(s, id, now, attempt);
            && t.pool.accounts == s.pool.accounts && t.hasStore == s.hasStore && id in t.requests
            && t.requests == s.requests[id := t.requests[id]]
            && t.requests[id].key == s.requests[id].key && t.requests[id].model == s.requests[id].model
  {
    hide Choice, Accounts.Pinned, Classify, Put, Clear, Send, Record, Enter;
    assert s.requests == s.requests[id := s.requests[id]];
    var p, t := s.requests[id].phase, AdvanceRequest(s, id, now, attempt);
    if p.Chosen? || p.Retrying? {
      SendFrame(s, id, p.account.slug, Classify(attempt));
      EnterFrame(Send(s, id, p.account.slug, Classify(attempt)), id);
    } else if p.Answered? || p.OtherAnswered? || p.Cooled? {
      StoreFrame(s, id, p.account.slug);
      EnterFrame(if p.Cooled? then Clear(s, id) else Put(s, id, p.account.slug), id);
    } else if p.Failed? || p.OtherFailed? {
      RecordFrame(s, id, p.account.slug, p.tierGate, now);
      EnterFrame(Record(s, id, p.account.slug, p.tierGate, now), id);
    } else if p.Cleared? {
      EnterFrame(s.(ticket := s.ticket + 1), id);
    }
  }

  lemma EnterFrame(s: System, id: nat)
    requires id in s.requests
    ensures forall p :: var t := Enter(s, id, p);
              && t.pool == s.pool && t.hasStore == s.hasStore && id in t.requests
              && t.requests == s.requests[id := t.requests[id]]
              && t.requests[id].key == s.requests[id].key && t.requests[id].model == s.requests[id].model
  {
  }

  lemma RecordFrame(s: System, id: nat, slug: string, tierGate: bool, now: nat)
    requires id in s.requests
    ensures var t := Record(s, id, slug, tierGate, now);
            t.pool.accounts == s.pool.accounts && t.hasStore == s.hasStore && t.requests == s.requests
  {
    CoolKeepsAccounts(s.pool, s.requests[id].model, now);
  }

  lemma SendFrame(s: System, id: nat, slug: string, verdict: Verdict)
    ensures var t := Send(s, id, slug, verdict);
            t.pool == s.pool && t.hasStore == s.hasStore && t.requests == s.requests
  {
  }

  lemma StoreFrame(s: System, id: nat, slug: string)
    requires id in s.requests
    ensures var t := Put(s, id, slug); t.pool == s.pool && t.hasStore == s.hasStore && t.requests == s.requests
    ensures var t := Clear(s, id); t.pool == s.pool && t.hasStore == s.hasStore && t.requests == s.requests
    ensures var t := Put(s, id, slug); t.log == s.log || exists e :: t.log == s.log + [e] && e.id == id
    ensures var t := Clear(s, id); t.log == s.log || exists e :: t.log == s.log + [e] && e.id == id
  {
  }

  lemma StepKeepsPool(s: System, a: Action)
    ensures Step(s, a).pool.accounts == s.pool.accounts && Step(s, a).hasStore == s.hasStore
    ensures forall id :: id in s.requests ==>
              && id in Step(s, a).requests
              && Step(s, a).requests[id].key == s.requests[id].key
              && Step(s, a).requests[id].model == s.requests[id].model
  {
    hide AdvanceRequest;
    if a.Advance? && a.id in s.requests {
      var clock := if a.now > s.clock then a.now else s.clock;
      AdvanceFrame(s.(clock := clock), a.id, clock, a.attempt);
    }
  }

  lemma {:induction false} PoolStays(s: System, actions: seq<Action>)
    ensures Run(s, actions).pool.accounts == s.pool.accounts && Run(s, actions).hasStore == s.hasStore
    ensures forall id :: id in s.requests ==>
              && id in Run(s, actions).requests
              && Run(s, actions).requests[id].key == s.requests[id].key
              && Run(s, actions).requests[id].model == s.requests[id].model
    decreases |actions|
  {
    if actions != [] {
      hide Step;
      StepKeepsPool(s, actions[0]);
      PoolStays(Step(s, actions[0]), actions[1..]);
    }
  }

  /** A request makes at most two sends; a second one goes to a different account, after the
      first was told to retry. */
  lemma AtMostTwoSends(s: System, id: nat)
    requires Inv(s) && id in s.requests
    ensures var trace := TraceOf(s.log, id);
            && (forall i, j :: 0 <= i < j < |trace| && trace[i].Sent? && trace[j].Sent? ==>
                  trace[i].slug != trace[j].slug && trace[i].verdict.Retry?)
            && (forall i, j, k :: 0 <= i < j < k < |trace| ==> !(trace[i].Sent? && trace[j].Sent? && trace[k].Sent?))
  {
    hide TraceOf, StoreOf, PinsFollowAnswers;
    assert Shape(s, id, s.requests[id], TraceOf(s.log, id));
  }

  /** A request all of whose attempts ended in a retry wrote no pin, and cleared the pin of its
      conversation. */
  lemma FailedRequestsUnpin(s: System, id: nat)
    requires Inv(s) && id in s.requests && s.requests[id].phase.Done? && s.pool.accounts != []
    requires forall e :: e in TraceOf(s.log, id) && e.Sent? ==> e.verdict.Retry?
    ensures forall e :: e in s.log && e.id == id ==> !e.Pinned?
    ensures s.hasStore && s.requests[id].key.Some? ==> Unpinned(id, s.requests[id].key.value) in s.log
  {
    hide TraceOf, StoreOf, PinsFollowAnswers;
    var r, trace := s.requests[id], TraceOf(s.log, id);
    assert Shape(s, id, r, trace);
    assert trace != [] && trace[0] in trace;
    var k := Width(s.hasStore, r);
    assert |trace| > k ==> trace[k] in trace;
    if s.hasStore && r.key.Some? {
      assert trace[1] == Unpinned(id, r.key.value) && trace[1] in trace;
      TraceIsLogged(s.log, id, trace[1]);
    }
    forall e | e in s.log && e.id == id
      ensures !e.Pinned?
    {
      LoggedIsTraced(s.log, id, e);
    }
  }

  lemma {:induction false} LoggedIsTraced(log: seq<Event>, id: nat, e: Event)
    requires e in log && e.id == id
    ensures e in TraceOf(log, id)
  {
    if e != Last(log) {
      LoggedIsTraced(Init(log), id, e);
    }
  }

  // ---- cooldowns -------------------------------------------------------------------------

  /** The request that met the failure is in the log with it, and a gate is for its model. */
  ghost predicate Earned(s: System, c: Cooldown) {
    && c.id in s.requests && (c.gate.Some? ==> c.gate.value == s.requests[c.id].model)
    && exists connected :: Sent(c.id, c.slug, Retry(c.gate.Some?, connected)) in s.log
  }

  predicate IsCooldown(c: Cooldown, slug: string) {
    c.slug == slug && c.gate.None?
  }

  predicate IsGate(c: Cooldown, slug: string, model: string) {
    c.slug == slug && c.gate == Some(model)
  }

  /** The account table holds the deadline of the latest failure of each account. */
  ghost predicate AccountTable(until: map<string, nat>, cooldowns: seq<Cooldown>) {
    && (forall slug :: slug in until ==>
          exists c :: c in cooldowns && IsCooldown(c, slug) && until[slug] == c.at + COOLDOWN)
    && (forall c :: c in cooldowns && c.gate.None? ==> c.slug in until && c.at + COOLDOWN <= until[c.slug])
  }

  /** The model table holds the deadline of the latest gate of each account and model. */
  ghost predicate GateTable(until: map<(string, string), nat>, cooldowns: seq<Cooldown>) {
    && (forall k :: k in until ==>
          exists c :: c in cooldowns && IsGate(c, k.0, k.1) && until[k] == c.at + COOLDOWN)
    && (forall c :: c in cooldowns && c.gate.Some? && c.gate.value != "" ==>
          (c.slug, c.gate.value) in until && c.at + COOLDOWN <= until[(c.slug, c.gate.value)])
  }

  /** The tables are those of the recorded failures, and each of these is earned. */
  ghost predicate PoolEarned(s: System) {
    && (forall c :: c in s.cooldowns ==> Earned(s, c) && c.at <= s.clock)
    && AccountTable(s.pool.cooldownUntil, s.cooldowns)
    && GateTable(s.pool.modelCooldownUntil, s.cooldowns)
  }

  /** A step logs at most one event, of its own request. */
  lemma LogGrows(s: System, id: nat, now: nat, attempt: Attempt)
    requires id in s.requests
    ensures var t := AdvanceRequest(s, id, now, attempt);
            && s.log <= t.log
            && (t.log == s.log || exists e :: t.log == s.log + [e] && e.id == id)
  {
    hide Choice, Accounts.Pinned, Classify, Cool, Put, Clear;
    var p := s.requests[id].phase;
    if p.Answered? || p.Cooled? || p.OtherAnswered? {
      StoreFrame(s, id, p.account.slug);
    }
  }

  lemma AccountTableGrows(until: map<string, nat>, cooldowns: seq<Cooldown>, c: Cooldown)
    requires AccountTable(until, cooldowns) && forall d :: d in cooldowns ==> d.at <= c.at
    ensures AccountTable(if c.gate.None? then until[c.slug := c.at + COOLDOWN] else until, cooldowns + [c])
  {
    var more := cooldowns + [c];
    assert c in more && forall d :: d in cooldowns ==> d in more;
  }

  lemma GateTableGrows(until: map<(string, string), nat>, cooldowns: seq<Cooldown>, c: Cooldown)
    requires GateTable(until, cooldowns) && forall d :: d in cooldowns ==> d.at <= c.at
    ensures GateTable(if c.gate.Some? && c.gate.value != "" then until[(c.slug, c.gate.value) := c.at + COOLDOWN]
                      else until, cooldowns + [c])
  {
    var more := cooldowns + [c];
    assert c in more && forall d :: d in cooldowns ==> d in more;
  }

  /** Recording a failure that the log shows keeps the pool earned. */
  lemma RecordKeepsEarned(s: System, id: nat, slug: string, gate: bool, now: nat, e: Event)
    requires PoolEarned(s) && id in s.requests && s.clock == now
    requires e in s.log && e.Sent? && e.id == id && e.slug == slug && e.verdict.Retry? && e.verdict.tierGate == gate
    ensures PoolEarned(Record(s, id, slug, gate, now))
  {
    hide Earned, Record, Cool, AccountTable, GateTable;
    var c := Cooldown(id, slug, if gate then Some(s.requests[id].model) else None, now);
    var t := Record(s, id, slug, gate, now);
    IsEarned(s, c, e);
    RecordIs(s, id, slug, gate, now);
    AccountTableGrows(s.pool.cooldownUntil, s.cooldowns, c);
    GateTableGrows(s.pool.modelCooldownUntil, s.cooldowns, c);
    assert t.cooldowns == s.cooldowns + [c];
    forall d | d in t.cooldowns
      ensures Earned(t, d) && d.at <= t.clock
    {
      StaysEarned(s, t, d);
    }
  }

  lemma RecordIs(s: System, id: nat, slug: string, gate: bool, now: nat)
    requires id in s.requests
    ensures var t, model := Record(s, id, slug, gate, now), s.requests[id].model;
            && t.cooldowns == s.cooldowns + [Cooldown(id, slug, if gate then Some(model) else None, now)]
            && t.log == s.log && t.requests == s.requests && t.clock == s.clock
            && t.pool.cooldownUntil
               == (if gate then s.pool.cooldownUntil else s.pool.cooldownUntil[slug := now + COOLDOWN])
            && t.pool.modelCooldownUntil
               == (if gate && model != "" then s.pool.modelCooldownUntil[(slug, model) := now + COOLDOWN]
                   else s.pool.modelCooldownUntil)
  {
  }

  lemma IsEarned(s: System, c: Cooldown, e: Event)
    requires e in s.log && e.Sent? && e.id == c.id && e.slug == c.slug && e.verdict.Retry?
    requires e.verdict.tierGate == c.gate.Some?
    requires c.id in s.requests && (c.gate.Some? ==> c.gate.value == s.requests[c.id].model)
    ensures Earned(s, c)
  {
    assert e == Sent(c.id, c.slug, Retry(c.gate.Some?, e.verdict.connected));
  }

  lemma StaysEarned(s: System, t: System, c: Cooldown)
    requires Earned(s, c) && s.log <= t.log
    requires forall id :: id in s.requests ==> id in t.requests && t.requests[id].model == s.requests[id].model
    ensures Earned(t, c)
  {
    var connected :| Sent(c.id, c.slug, Retry(c.gate.Some?, connected)) in s.log;
    assert Sent(c.id, c.slug, Retry(c.gate.Some?, connected)) in t.log;
  }

  lemma EarnedGrows(s: System, t: System)
    requires PoolEarned(s) && t.pool == s.pool && t.cooldowns == s.cooldowns && s.log <= t.log && s.clock <= t.clock
    requires forall id :: id in s.requests ==> id in t.requests && t.requests[id].model == s.requests[id].model
    ensures PoolEarned(t)
  {
    hide AccountTable, GateTable, Earned;
    forall c | c in t.cooldowns
      ensures Earned(t, c)
    {
      StaysEarned(s, t, c);
    }
  }

  lemma PoolUnchanged(s: System, id: nat, now: nat, attempt: Attempt)
    requires id in s.requests
    ensures var p, t := s.requests[id].phase, AdvanceRequest(s, id, now, attempt);
            var u := if p.Failed? || p.OtherFailed? then Record(s, id, p.account.slug, p.tierGate, now) else s;
            t.pool == u.pool && t.cooldowns == u.cooldowns && t.clock == s.clock
  {
    hide Choice, Accounts.Pinned, Classify, Cool;
  }

  lemma FailureIsLogged(s: System, id: nat) returns (e: Event)
    requires Inv(s) && id in s.requests && (s.requests[id].phase.Failed? || s.requests[id].phase.OtherFailed?)
    ensures var p := s.requests[id].phase;
            && e in s.log && e.Sent? && e.id == id && e.slug == p.account.slug
            && e.verdict.Retry? && e.verdict.tierGate == p.tierGate
  {
    hide TraceOf, StoreOf, PinsFollowAnswers;
    var trace := TraceOf(s.log, id);
    assert Shape(s, id, s.requests[id], trace);
    e := Last(trace);
    TraceIsLogged(s.log, id, e);
  }

  lemma StepKeepsEarned(s: System, a: Action)
    requires Inv(s) && PoolEarned(s)
    ensures PoolEarned(Step(s, a))
  {
    hide AdvanceRequest, PoolEarned, Inv, Cool;
    StepKeepsPool(s, a);
    if a.Advance? && a.id in s.requests {
      var clock := if a.now > s.clock then a.now else s.clock;
      var u := s.(clock := clock);
      EarnedGrows(s, u);
      LogGrows(u, a.id, clock, a.attempt);
      PoolUnchanged(u, a.id, clock, a.attempt);
      var r := s.requests[a.id];
      if r.phase.Failed? || r.phase.OtherFailed? {
        var e := FailureIsLogged(s, a.id);
        RecordKeepsEarned(u, a.id, r.phase.account.slug, r.phase.tierGate, clock, e);
        EarnedGrows(Record(u, a.id, r.phase.account.slug, r.phase.tierGate, clock), Step(s, a));
      } else {
        EarnedGrows(u, Step(s, a));
      }
    } else {
      EarnedGrows(s, Step(s, a));
    }
  }

  /** In every interleaving an account cools exactly as its recorded failures say, each of them a
      logged failure of its own, and a gate for a model was met by a request for that model. */
  lemma {:induction false} CooldownsAreEarned(s: System, actions: seq<Action>)
    requires Inv(s) && PoolEarned(s)
    ensures PoolEarned(Run(s, actions))
    decreases |actions|
  {
    if actions != [] {
      StepKeepsInv(s, actions[0]);
      StepKeepsEarned(s, actions[0]);
      CooldownsAreEarned(Step(s, actions[0]), actions[1..]);
    }
  }
}
