/** How a request is retried: which verdicts fail over, to which account, and what is recorded. */
module Failover {
  import opened Sequences
  import opened Accounts
  import opened RouterProtocol

  /** Retried are a failed connection, 429, every 5xx and a 400 with the tier-gate marker, which alone
      gates only the model. */
  lemma VerdictMeans(a: Attempt)
    ensures Classify(a).Retry? <==>
              || a.ConnectionFailed? || a.status == 429 || a.status / 100 == 5 || (a.status == 400 && a.marked)
    ensures Classify(a).Retry? ==>
              && (Classify(a).tierGate <==> a.Responded? && a.status == 400)
              && (Classify(a).connected <==> a.Responded?)
  {
  }

  // ---- the first account -------------------------------------------------------------

  /** A request whose pin is missing or unusable takes one ticket and goes to a healthy account if
      there is one; a usable pin takes none. */
  lemma FirstChoice(s: System, id: nat, now: nat, attempt: Attempt)
    requires id in s.requests && s.requests[id].phase.LookedUp? && s.pool.accounts != []
    ensures var r, t := s.requests[id], AdvanceRequest(s, id, now, attempt);
            var pin := r.phase.pin;
            var usable := exists a :: a in s.pool.accounts && Some(a.slug) == pin
                                      && !Cooling(s.pool, a.slug, now) && !Gated(s.pool, a.slug, r.model, now);
            && id in t.requests && t.requests[id].phase.Chosen?
            && var a := t.requests[id].phase.account;
            && a in s.pool.accounts
            && (if usable then Some(a.slug) == pin && t.ticket == s.ticket
                else
                  && t.ticket == s.ticket + 1
                  && (Healthy(s.pool, a.slug, None, r.model, now)
                      <==> exists b :: b in s.pool.accounts && Healthy(s.pool, b.slug, None, r.model, now)))
  {
    hide Choice, Cooling, Gated;
    PickIsTotalAndRanked(s.pool, s.ticket, None, s.requests[id].model, now);
  }

  // ---- failing over --------------------------------------------------------------------

  /** There is another account that may be tried: one that is not gated for the model, or else the
      first of the pool. */
  ghost predicate OtherAccount(v: View, failed: string, model: string, now: nat) {
    || (exists a :: a in v.accounts && a.slug != failed && !Gated(v, a.slug, model, now))
    || (v.accounts != [] && v.accounts[0].slug != failed)
  }

  /** After a failure the request takes one ticket and retries on another account exactly if there is
      one to try, on a healthy one if possible. */
  lemma FailsOver(s: System, id: nat, now: nat, attempt: Attempt)
    requires Inv(s) && id in s.requests && s.requests[id].phase.Cleared?
    ensures var r, t := s.requests[id], AdvanceRequest(s, id, now, attempt);
            var a := r.phase.account;
            && t == s.(ticket := s.ticket + 1, requests := s.requests[id := r.(phase := t.requests[id].phase)])
            && (if OtherAccount(s.pool, a.slug, r.model, now) then
                  exists b :: t.requests[id].phase == Retrying(a, b) && b in s.pool.accounts && b.slug != a.slug
                              && (Healthy(s.pool, b.slug, Some(a.slug), r.model, now) <==>
                                    exists c :: c in s.pool.accounts
                                                && Healthy(s.pool, c.slug, Some(a.slug), r.model, now))
                else t.requests[id].phase == Done(NoOther(a)))
  {
    var r := s.requests[id];
    FailedIsInPool(s, id);
    hide Inv, Choice, Gated, Healthy, Cooling;
    PickIsTotalAndRanked(s.pool, s.ticket, Some(r.phase.account.slug), r.model, now);
    RetryFindsAnother(s.pool, s.ticket, r.phase.account.slug, r.model, now);
  }

  lemma FailedIsInPool(s: System, id: nat)
    requires Inv(s) && id in s.requests && s.requests[id].phase.Cleared?
    ensures s.requests[id].phase.account in s.pool.accounts
  {
    hide StoreOf, TraceOf, PinsFollowAnswers, FailedFrom;
    assert Shape(s, id, s.requests[id], TraceOf(s.log, id));
  }

  function ClockOf(s: System, now: nat): nat {
    if now > s.clock then now else s.clock
  }

  /** The step with which a request gives up on finding another account. */
  ghost predicate GivesUp(s: System, act: Action, id: nat, a: Account) {
    && act.Advance? && act.id == id && id in s.requests && s.requests[id].phase == Cleared(a)
    && !OtherAccount(s.pool, a.slug, s.requests[id].model, ClockOf(s, act.now))
  }

  predicate IsDone(s: System, id: nat) {
    id in s.requests && s.requests[id].phase.Done?
  }

  lemma OnlyFromCleared(s: System, id: nat, now: nat, attempt: Attempt, a: Account)
    requires id in s.requests && !IsDone(s, id)
    requires var t := AdvanceRequest(s, id, now, attempt); id in t.requests && t.requests[id].phase == Done(NoOther(a))
    ensures s.requests[id].phase == Cleared(a)
  {
    hide Choice, Accounts.Pinned, Classify, Cool;
  }

  lemma NoOtherGivesUp(s: System, act: Action, id: nat, a: Account)
    requires Inv(s) && !IsDone(s, id)
    requires IsDone(Step(s, act), id) && Step(s, act).requests[id].phase == Done(NoOther(a))
    ensures GivesUp(s, act, id, a)
  {
    hide Inv, AdvanceRequest, OtherAccount;
    if act.Advance? && act.id in s.requests {
      var u := s.(clock := ClockOf(s, act.now));
      AdvanceFrame(u, act.id, u.clock, act.attempt);
      if act.id == id {
        OnlyFromCleared(u, id, u.clock, act.attempt, a);
        ClockKeepsInv(s, u.clock);
        FailsOver(u, id, u.clock, act.attempt);
      }
    }
  }

  lemma ClockKeepsInv(s: System, clock: nat)
    requires Inv(s)
    ensures Inv(s.(clock := clock))
  {
    hide StoreOf, PinsFollowAnswers, TraceOf, Shape;
    var u := s.(clock := clock);
    forall k | k in u.requests
      ensures Shape(u, k, u.requests[k], TraceOf(u.log, k))
    {
      SameShape(s, u, k, u.requests[k], TraceOf(u.log, k));
    }
  }

  lemma DoneStaysDone(s: System, act: Action, id: nat)
    requires IsDone(s, id)
    ensures IsDone(Step(s, act), id) && Step(s, act).requests[id].phase == s.requests[id].phase
  {
    hide AdvanceRequest;
    if act.Advance? && act.id in s.requests {
      var u := s.(clock := ClockOf(s, act.now));
      AdvanceFrame(u, act.id, u.clock, act.attempt);
      if act.id == id {
        DoneStays(u, id, u.clock, act.attempt);
      }
    }
  }

  lemma {:induction false} DoneForever(s: System, actions: seq<Action>, id: nat)
    requires IsDone(s, id)
    ensures IsDone(Run(s, actions), id) && Run(s, actions).requests[id].phase == s.requests[id].phase
    decreases |actions|
  {
    hide Step;
    if actions != [] {
      DoneStaysDone(s, actions[0], id);
      DoneForever(Step(s, actions[0]), actions[1..], id);
    }
  }

  /** In every run, a request that hands its client the first failure without a retry had, when it
      picked, no other account to try. */
  lemma {:induction false} NoRetryOnlyWithoutAnother(s: System, actions: seq<Action>, id: nat, a: Account)
    returns (n: nat)
    requires Inv(s) && !IsDone(s, id)
    requires IsDone(Run(s, actions), id) && Run(s, actions).requests[id].phase == Done(NoOther(a))
    ensures n < |actions| && GivesUp(Run(s, actions[..n]), actions[n], id, a)
    decreases |actions|
  {
    hide Step, Inv, GivesUp;
    var t := Step(s, actions[0]);
    assert actions[..0] == [] && Run(s, []) == s;
    if IsDone(t, id) {
      DoneForever(t, actions[1..], id);
      NoOtherGivesUp(s, actions[0], id, a);
      n := 0;
    } else {
      StepKeepsInv(s, actions[0]);
      var m := NoRetryOnlyWithoutAnother(t, actions[1..], id, a);
      n := m + 1;
      assert actions[..n][0] == actions[0] && actions[..n][1..] == actions[1..][..m];
    }
  }

  // ---- every request ends ---------------------------------------------------------------

  function StepsLeft(p: Phase): nat {
    match p
    case Arrived => 8
    case LookedUp(_) => 7
    case Chosen(_) => 6
    case Failed(_, _) => 5
    case Cooled(_) => 4
    case Cleared(_) => 3
    case Retrying(_, _) => 2
    case Answered(_) => 1
    case OtherAnswered(_, _) => 1
    case OtherFailed(_, _, _) => 1
    case Done(_) => 0
  }

  function Advances(actions: seq<Action>, id: nat): nat {
    if actions == [] then 0
    else (if actions[0].Advance? && actions[0].id == id then 1 else 0) + Advances(actions[1..], id)
  }

  lemma StepComesCloser(s: System, act: Action, id: nat)
    requires id in s.requests
    ensures id in Step(s, act).requests
    ensures var n, m := StepsLeft(s.requests[id].phase), StepsLeft(Step(s, act).requests[id].phase);
            if act.Advance? && act.id == id && n > 0 then m < n else m == n
  {
    hide AdvanceRequest;
    if act.Advance? && act.id in s.requests {
      var u := s.(clock := ClockOf(s, act.now));
      AdvanceFrame(u, act.id, u.clock, act.attempt);
      OwnStepComesCloser(u, act.id, u.clock, act.attempt);
    }
  }

  lemma OwnStepComesCloser(s: System, id: nat, now: nat, attempt: Attempt)
    requires id in s.requests
    ensures var t := AdvanceRequest(s, id, now, attempt);
            && id in t.requests
            && (!s.requests[id].phase.Done? ==> StepsLeft(t.requests[id].phase) < StepsLeft(s.requests[id].phase))
            && (s.requests[id].phase.Done? ==> t == s)
  {
    hide Choice, Accounts.Pinned, Classify, Put, Clear, Send, Record;
    var p := s.requests[id].phase;
    if p.Chosen? || p.Retrying? {
      SendFrame(s, id, p.account.slug, Classify(attempt));
    } else if p.Answered? || p.OtherAnswered? || p.Cooled? {
      StoreFrame(s, id, p.account.slug);
    } else if p.Failed? || p.OtherFailed? {
      RecordFrame(s, id, p.account.slug, p.tierGate, now);
    }
  }

  lemma {:induction false} EnoughStepsEnd(s: System, actions: seq<Action>, id: nat)
    requires id in s.requests && Advances(actions, id) >= StepsLeft(s.requests[id].phase)
    ensures IsDone(Run(s, actions), id)
    decreases |actions|
  {
    hide Step;
    if actions != [] {
      StepComesCloser(s, actions[0], id);
      EnoughStepsEnd(Step(s, actions[0]), actions[1..], id);
    }
  }

  /** Eight steps end every request that arrives, whatever the others do in between. */
  lemma EveryRequestEnds(s: System, actions: seq<Action>, id: nat, key: Option<string>, model: string)
    requires id !in s.requests && Advances(actions, id) >= 8
    ensures var t := Run(s, [Arrive(id, key, model)] + actions);
            IsDone(t, id) && t.requests[id].key == key && t.requests[id].model == model
  {
    var all, u := [Arrive(id, key, model)] + actions, Step(s, Arrive(id, key, model));
    assert all[1..] == actions;
    EnoughStepsEnd(u, actions, id);
    PoolStays(u, actions);
  }

  // ---- failures are recorded ---------------------------------------------------------------

  ghost predicate Recorded(cooldowns: seq<Cooldown>, id: nat, model: string, e: Event)
    requires e.Sent? && e.verdict.Retry?
  {
    exists c :: c in cooldowns && c.id == id && c.slug == e.slug
                && c.gate == if e.verdict.tierGate then Some(model) else None
  }

  predicate IsFailure(e: Event) {
    e.Sent? && e.verdict.Retry?
  }

  /** A failed second attempt that did not connect. */
  predicate Unreached(e: Event, j: nat) {
    j > 0 && IsFailure(e) && !e.verdict.connected
  }

  /** Each failure in the trace is recorded or about to be, except a second attempt that did not
      connect, which never is. */
  ghost predicate RecordsFailures(s: System, r: Request, id: nat, trace: seq<Event>) {
    forall j :: 0 <= j < |trace| && IsFailure(trace[j]) ==>
      if Unreached(trace[j], j) then !Recorded(s.cooldowns, id, r.model, trace[j]) && !r.phase.OtherFailed?
      else
        || Recorded(s.cooldowns, id, r.model, trace[j])
        || (if j == 0 then r.phase.Failed? else r.phase.OtherFailed?)
  }

  ghost predicate AllRecorded(s: System) {
    forall id :: id in s.requests ==> RecordsFailures(s, s.requests[id], id, TraceOf(s.log, id))
  }

  lemma StillRecords(s: System, t: System, r: Request, id: nat, trace: seq<Event>)
    requires RecordsFailures(s, r, id, trace) && s.cooldowns <= t.cooldowns
    requires forall c :: c in t.cooldowns ==> c in s.cooldowns || c.id != id
    ensures RecordsFailures(t, r, id, trace)
  {
    forall j | 0 <= j < |trace| && IsFailure(trace[j])
      ensures Recorded(t.cooldowns, id, r.model, trace[j]) <==> Recorded(s.cooldowns, id, r.model, trace[j])
    {
      if Recorded(s.cooldowns, id, r.model, trace[j]) {
        RecordedGrows(s.cooldowns, t.cooldowns, id, r.model, trace[j]);
      }
    }
  }

  lemma RecordedGrows(a: seq<Cooldown>, b: seq<Cooldown>, id: nat, model: string, e: Event)
    requires IsFailure(e) && a <= b && Recorded(a, id, model, e)
    ensures Recorded(b, id, model, e)
  {
    var c :| c in a && c.id == id && c.slug == e.slug && c.gate == if e.verdict.tierGate then Some(model) else None;
    assert c in b;
  }

  /** A step that neither sends nor records. */
  lemma OtherStepRecords(s: System, id: nat, now: nat, attempt: Attempt)
    requires id in s.requests && RecordsFailures(s, s.requests[id], id, TraceOf(s.log, id))
    requires var p := s.requests[id].phase; !p.Chosen? && !p.Retrying? && !p.Failed? && !p.OtherFailed?
    ensures var t := AdvanceRequest(s, id, now, attempt);
            id in t.requests && RecordsFailures(t, t.requests[id], id, TraceOf(t.log, id))
  {
    hide TraceOf, AdvanceRequest;
    var t := AdvanceRequest(s, id, now, attempt);
    AdvanceFrame(s, id, now, attempt);
    PoolUnchanged(s, id, now, attempt);
    NoSend(s, id, now, attempt);
    OnlySendsFail(s, id, now, attempt);
    hide Recorded;
    if t.log != s.log {
      var e :| t.log == s.log + [e] && e.id == id && !e.Sent?;
      TraceOneMore(s.log, e, id);
    }
  }

  lemma OnlySendsFail(s: System, id: nat, now: nat, attempt: Attempt)
    requires id in s.requests && !s.requests[id].phase.Retrying? && !s.requests[id].phase.OtherFailed?
    ensures var t := AdvanceRequest(s, id, now, attempt); id in t.requests && !t.requests[id].phase.OtherFailed?
  {
    hide Choice, Accounts.Pinned, Classify, Put, Clear, Send, Record;
    var p := s.requests[id].phase;
    if p.Chosen? {
      SendFrame(s, id, p.account.slug, Classify(attempt));
    } else if p.Answered? || p.OtherAnswered? || p.Cooled? {
      StoreFrame(s, id, p.account.slug);
    } else if p.Failed? {
      RecordFrame(s, id, p.account.slug, p.tierGate, now);
    }
  }

  lemma NoSend(s: System, id: nat, now: nat, attempt: Attempt)
    requires id in s.requests && !s.requests[id].phase.Chosen? && !s.requests[id].phase.Retrying?
    ensures var t := AdvanceRequest(s, id, now, attempt);
            t.log == s.log || exists e :: t.log == s.log + [e] && e.id == id && !e.Sent?
  {
    hide Choice, Accounts.Pinned, Classify, Cool, Put, Clear;
    var p := s.requests[id].phase;
    if p.Answered? || p.OtherAnswered? || p.Cooled? {
      WritesAreNoSends(s, id, p.account.slug);
    }
  }

  lemma WritesAreNoSends(s: System, id: nat, slug: string)
    requires id in s.requests
    ensures var t := Put(s, id, slug); t.log == s.log || exists e :: t.log == s.log + [e] && e.id == id && !e.Sent?
    ensures var t := Clear(s, id); t.log == s.log || exists e :: t.log == s.log + [e] && e.id == id && !e.Sent?
  {
  }

  lemma SendRecords(s: System, id: nat, now: nat, attempt: Attempt)
    requires Inv(s) && PoolEarned(s) && id in s.requests
    requires RecordsFailures(s, s.requests[id], id, TraceOf(s.log, id))
    requires s.requests[id].phase.Chosen? || s.requests[id].phase.Retrying?
    ensures var t := AdvanceRequest(s, id, now, attempt);
            id in t.requests && RecordsFailures(t, t.requests[id], id, TraceOf(t.log, id))
  {
    var r := s.requests[id];
    var e := Sent(id, r.phase.account.slug, Classify(attempt));
    NotYetRecorded(s, id, e);
    hide *;
    var t := AdvanceRequest(s, id, now, attempt);
    TraceOneMore(s.log, e, id);
    SendIs(s, id, now, attempt);
    OneMoreFailure(s, t, r, t.requests[id], id, TraceOf(s.log, id), e);
  }

  lemma OneMoreFailure(s: System, t: System, r: Request, q: Request, id: nat, trace: seq<Event>, e: Event)
    requires RecordsFailures(s, r, id, trace) && t.cooldowns == s.cooldowns && q.model == r.model && e.Sent?
    requires !r.phase.Failed? && !r.phase.OtherFailed?
    requires forall j :: 0 < j < |trace| ==> !IsFailure(trace[j])
    requires if trace == [] then e.verdict.Retry? ==> q.phase.Failed?
             else
               && (e.verdict.Retry? && e.verdict.connected ==> q.phase.OtherFailed?)
               && (e.verdict.Retry? && !e.verdict.connected ==>
                     !q.phase.OtherFailed? && !Recorded(s.cooldowns, id, r.model, e))
    ensures RecordsFailures(t, q, id, trace + [e])
  {
    hide Recorded;
  }

  /** A send is logged with the verdict on what it met, and the verdict decides what comes next. */
  lemma SendIs(s: System, id: nat, now: nat, attempt: Attempt)
    requires id in s.requests && (s.requests[id].phase.Chosen? || s.requests[id].phase.Retrying?)
    ensures var r, t, v := s.requests[id], AdvanceRequest(s, id, now, attempt), Classify(attempt);
            && id in t.requests && t.cooldowns == s.cooldowns && t.requests[id].model == r.model
            && t.log == s.log + [Sent(id, r.phase.account.slug, v)]
            && var p := t.requests[id].phase;
            && (r.phase.Chosen? ==> (p.Failed? <==> v.Retry?) && !p.OtherFailed?)
            && (r.phase.Retrying? ==> (p.OtherFailed? <==> v.Retry? && v.connected) && !p.Failed?)
  {
    hide Classify;
  }

  /** Before its second send, a request has no record against the account it is about to try. */
  lemma NotYetRecorded(s: System, id: nat, e: Event)
    requires Inv(s) && PoolEarned(s) && id in s.requests
    requires var p := s.requests[id].phase; p.Chosen? || p.Retrying?
    requires e.Sent? && e.slug == s.requests[id].phase.account.slug
    ensures s.requests[id].phase.Chosen? ==> TraceOf(s.log, id) == []
    ensures s.requests[id].phase.Retrying? ==> TraceOf(s.log, id) != []
    ensures forall j :: 0 < j < |TraceOf(s.log, id)| ==> !IsFailure(TraceOf(s.log, id)[j])
    ensures s.requests[id].phase.Retrying? && IsFailure(e) ==> !Recorded(s.cooldowns, id, s.requests[id].model, e)
  {
    hide StoreOf, TraceOf, PinsFollowAnswers, AccountTable, GateTable;
    var r, trace := s.requests[id], TraceOf(s.log, id);
    assert Shape(s, id, r, trace);
    if r.phase.Retrying? {
      forall c | c in s.cooldowns && c.id == id
        ensures c.slug != e.slug
      {
        var connected :| Sent(c.id, c.slug, Retry(c.gate.Some?, connected)) in s.log;
        LoggedIsTraced(s.log, id, Sent(c.id, c.slug, Retry(c.gate.Some?, connected)));
      }
    }
  }

  /** Only the failure that is about to be recorded is still missing. */
  lemma MissingFailure(s: System, id: nat, j: nat)
    requires Inv(s) && id in s.requests && j < |TraceOf(s.log, id)| && IsFailure(TraceOf(s.log, id)[j])
    requires var p := s.requests[id].phase; (p.Failed? && j == 0) || (p.OtherFailed? && j > 0)
    ensures var p, e := s.requests[id].phase, TraceOf(s.log, id)[j];
            e.slug == p.account.slug && e.verdict.tierGate == p.tierGate
  {
    hide StoreOf, TraceOf, PinsFollowAnswers;
    assert Shape(s, id, s.requests[id], TraceOf(s.log, id));
  }

  lemma OnlyOneSend(s: System, id: nat)
    requires Inv(s) && id in s.requests && s.requests[id].phase.Failed?
    ensures |TraceOf(s.log, id)| == 1
  {
    hide StoreOf, TraceOf, PinsFollowAnswers;
    assert Shape(s, id, s.requests[id], TraceOf(s.log, id));
  }

  lemma RecordRecords(s: System, id: nat, now: nat, attempt: Attempt)
    requires Inv(s) && id in s.requests && RecordsFailures(s, s.requests[id], id, TraceOf(s.log, id))
    requires s.requests[id].phase.Failed? || s.requests[id].phase.OtherFailed?
    ensures var t := AdvanceRequest(s, id, now, attempt);
            id in t.requests && RecordsFailures(t, t.requests[id], id, TraceOf(t.log, id))
  {
    hide Inv, TraceOf, AdvanceRequest, Shape;
    var r, t, trace := s.requests[id], AdvanceRequest(s, id, now, attempt), TraceOf(s.log, id);
    AdvanceFrame(s, id, now, attempt);
    PoolUnchanged(s, id, now, attempt);
    RecordIs(s, id, r.phase.account.slug, r.phase.tierGate, now);
    NoSend(s, id, now, attempt);
    RecordingLogsNothing(s, id, now, attempt);
    var c := Last(t.cooldowns);
    forall j | 0 <= j < |trace| && IsFailure(trace[j])
      ensures !Unreached(trace[j], j) && Recorded(t.cooldowns, id, r.model, trace[j])
    {
      if r.phase.Failed? {
        OnlyOneSend(s, id);
      }
      if (r.phase.Failed? && j == 0) || (r.phase.OtherFailed? && j > 0) {
        MissingFailure(s, id, j);
        assert c in t.cooldowns && c.id == id;
      } else {
        RecordedGrows(s.cooldowns, t.cooldowns, id, r.model, trace[j]);
      }
    }
  }

  lemma RecordingLogsNothing(s: System, id: nat, now: nat, attempt: Attempt)
    requires id in s.requests && (s.requests[id].phase.Failed? || s.requests[id].phase.OtherFailed?)
    ensures AdvanceRequest(s, id, now, attempt).log == s.log
  {
    hide Choice, Accounts.Pinned, Classify, Cool;
  }

  lemma OwnStepRecords(s: System, id: nat, now: nat, attempt: Attempt)
    requires Inv(s) && PoolEarned(s) && id in s.requests && RecordsFailures(s, s.requests[id], id, TraceOf(s.log, id))
    ensures var t := AdvanceRequest(s, id, now, attempt);
            id in t.requests && RecordsFailures(t, t.requests[id], id, TraceOf(t.log, id))
  {
    var p := s.requests[id].phase;
    hide *;
    if p.Chosen? || p.Retrying? {
      SendRecords(s, id, now, attempt);
    } else if p.Failed? || p.OtherFailed? {
      RecordRecords(s, id, now, attempt);
    } else {
      OtherStepRecords(s, id, now, attempt);
    }
  }

  lemma StepRecords(s: System, act: Action)
    requires Inv(s) && PoolEarned(s) && AllRecorded(s)
    ensures AllRecorded(Step(s, act))
  {
    hide Inv, PoolEarned, RecordsFailures, TraceOf, AdvanceRequest, Cool;
    var t := Step(s, act);
    if act.Advance? && act.id in s.requests {
      var u := s.(clock := ClockOf(s, act.now));
      ClockKeepsInv(s, u.clock);
      EarnedGrows(s, u);
      LogGrows(u, act.id, u.clock, act.attempt);
      OwnRecords(u, act.id, u.clock, act.attempt);
      AdvanceFrame(u, act.id, u.clock, act.attempt);
      forall id | id in t.requests
        ensures RecordsFailures(t, t.requests[id], id, TraceOf(t.log, id))
      {
        var trace := TraceOf(s.log, id);
        StillRecords(s, u, s.requests[id], id, trace);
        if id == act.id {
          OwnStepRecords(u, id, u.clock, act.attempt);
        } else {
          StillRecords(u, t, s.requests[id], id, trace);
          if t.log != s.log {
            var e :| t.log == s.log + [e] && e.id == act.id;
            TraceOneMore(s.log, e, id);
          }
        }
      }
    } else {
      forall id | id in t.requests
        ensures RecordsFailures(t, t.requests[id], id, TraceOf(t.log, id))
      {
        if id in s.requests {
          StillRecords(s, t, s.requests[id], id, TraceOf(s.log, id));
        } else {
          NothingLogged(s, t, id);
        }
      }
    }
  }

  /** A step adds records of its own request only. */
  lemma OwnRecords(s: System, id: nat, now: nat, attempt: Attempt)
    requires id in s.requests
    ensures var t := AdvanceRequest(s, id, now, attempt);
            s.cooldowns <= t.cooldowns && forall c :: c in t.cooldowns ==> c in s.cooldowns || c.id == id
  {
    hide AdvanceRequest;
    PoolUnchanged(s, id, now, attempt);
    var p := s.requests[id].phase;
    if p.Failed? || p.OtherFailed? {
      RecordIs(s, id, p.account.slug, p.tierGate, now);
    }
  }

  lemma NothingLogged(s: System, t: System, id: nat)
    requires Inv(s) && id !in s.requests && id in t.requests && t.log == s.log
    ensures RecordsFailures(t, t.requests[id], id, TraceOf(t.log, id))
  {
    hide StoreOf, TraceOf, PinsFollowAnswers, Shape;
    NoTrace(s.log, id);
  }

  lemma {:induction false} RunRecords(s: System, actions: seq<Action>)
    requires Inv(s) && PoolEarned(s) && AllRecorded(s)
    ensures AllRecorded(Run(s, actions))
    decreases |actions|
  {
    hide Inv, PoolEarned, AllRecorded, Step;
    if actions != [] {
      StepKeepsInv(s, actions[0]);
      StepKeepsEarned(s, actions[0]);
      StepRecords(s, actions[0]);
      RunRecords(Step(s, actions[0]), actions[1..]);
    }
  }

  lemma StartRecords(accounts: seq<Account>, hasStore: bool)
    ensures AllRecorded(Start(accounts, hasStore))
  {
  }

  /** In every run, each failure that a request met is recorded against the account, or as a gate for
      the model, before the request goes on, and a second attempt that did not connect never is. */
  lemma FailuresAreRecorded(accounts: seq<Account>, hasStore: bool, actions: seq<Action>)
    ensures AllRecorded(Run(Start(accounts, hasStore), actions))
  {
    StartHasInv(accounts, hasStore);
    StartRecords(accounts, hasStore);
    RunRecords(Start(accounts, hasStore), actions);
  }
}
