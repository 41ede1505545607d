/** However many requests and background ticks interleave, one refresh at a time and no more. */
module SingleFlight {
  import opened Sequences
  import opened AuthFile
  import opened TokenRotation

  // ---- after a rotation -----------------------------------------------------------------------

  /** Nobody is on the way to a grant or to the file: tasks wait, have just been given the lock,
      or have already renamed their record into place; no other rename is in flight, and only
      requests and ticks are about. */
  ghost predicate Calm(s: System) {
    s.orphans == map[] && forall t :: t in s.tasks ==> CalmPhase(s.tasks[t])
  }

  predicate CalmPhase(p: Phase) {
    match p
    case Waiting(op) => op.Get? || op.Tick?
    case Locked(op) => op.Get? || op.Tick?
    case Writing(_, w, _) => w.Renamed?
    case _ => false
  }

  /** A request, a tick or the business of the lock holder, while the token is out of its buffer; a
      power loss only once the latest version is durable. */
  ghost predicate BeforeExpiry(s: System, a: Action)
    requires s.versions != []
  {
    match a
    case Call(_, op) => op.Get? || op.Tick?
    case Acquire(_) => true
    case Proceed(_, now, _, _, _) => !TokenExpired(Last(s.versions).record.expiresAt, Later(s, now))
    case Cancel(_, _) => true
    case Land(_, _) => true
    case Writeback => true
    case PowerLoss(_) => s.durableAt == |s.versions| - 1
  }

  ghost predicate AllBeforeExpiry(fmt: Format, s: System, actions: seq<Action>)
    requires s.versions != []
    decreases |actions|
  {
    actions != [] ==>
      && BeforeExpiry(s, actions[0])
      && (VersionsNonEmpty(fmt, s, actions[0]);
          AllBeforeExpiry(fmt, Step(fmt, s, actions[0]), actions[1..]))
  }

  lemma CalmStep(fmt: Format, s: System, a: Action, who: Identity)
    requires RoundTrips(fmt) && Inv(fmt, s, who) && Calm(s) && s.versions != [] && BeforeExpiry(s, a)
    ensures var t := Step(fmt, s, a); Calm(t) && t.versions == s.versions && t.grants == s.grants
  {
    InvMeansVersions(fmt, s, who);
    CurrentIsRead(fmt, s, who);
    if a.Proceed? && s.lock == Some(a.task) && a.task in s.tasks {
      HolderIsOk(fmt, s, a.task, who);
      hide Inv, FileOk, RoundTrips, ReadRaw, Readable, WriteOk;
      if s.tasks[a.task].Writing? {
        WritingAdvance(fmt, s.(clock := Later(s, a.now)), a.task, a.ok, a.size, a.reply);
      }
    }
  }

  /** Single flight, after a rotation: from the moment a refreshed record is in the file until its
      token enters the buffer, no interleaving of requests and ticks, and no crash once the record
      is durable, sends another grant or touches the record. */
  lemma {:induction false} NoGrantBeforeExpiry(fmt: Format, s: System, actions: seq<Action>, who: Identity)
    requires RoundTrips(fmt) && Inv(fmt, s, who) && Calm(s) && s.versions != [] && AllBeforeExpiry(fmt, s, actions)
    ensures var t := Run(fmt, s, actions); t.grants == s.grants && t.versions == s.versions && Calm(t)
    decreases |actions|
  {
    if actions != [] {
      hide Step, Inv, Calm, BeforeExpiry;
      CalmStep(fmt, s, actions[0], who);
      StepKeepsInv(fmt, s, actions[0], who);
      NoGrantBeforeExpiry(fmt, Step(fmt, s, actions[0]), actions[1..], who);
    }
  }

  /** Right after a rotation is renamed into place, with requests and ticks only, the system is calm. */
  lemma RotationCalms(fmt: Format, s: System, task: nat, size: nat, reply: Reply, who: Identity)
    requires Inv(fmt, s, who) && s.orphans == map[] && s.lock == Some(task) && task in s.tasks
    requires s.tasks[task].Writing? && s.tasks[task].write.Filled?
    requires forall t :: t in s.tasks && s.tasks[t].Waiting? ==> s.tasks[t].op.Get? || s.tasks[t].op.Tick?
    ensures var t := Advance(fmt, s, task, true, size, reply);
            Calm(t) && t.versions == s.versions + [s.tasks[task].version]
  {
    HolderIsOk(fmt, s, task, who);
    OnlyTheHolder(fmt, s, who);
    hide Inv, PhaseOk, FileOk;
  }

  lemma LongLifetimeIsOutOfBuffer(now: int, expiresIn: int)
    requires 0 <= now && now + TOKEN_EXPIRY_BUFFER_MS < I64_MAX
    ensures ExpiresAtFrom(now, expiresIn).Some? <==> expiresIn > 0
    ensures expiresIn > 0 ==>
              (!TokenExpired(ExpiresAtFrom(now, expiresIn).value, now) <==> expiresIn * 1000 > TOKEN_EXPIRY_BUFFER_MS)
  {
  }

  // ---- one rotation ----------------------------------------------------------------------------

  /** The lock holder has sent its grant and has not renamed the result into place. */
  predicate InFlight(p: Phase) {
    p.Awaiting? || p.Persisting? || (p.Writing? && !p.write.Renamed?)
  }

  /** Only requests and ticks call; a refresh that has sent its grant is neither cancelled nor cut
      off, its reply is accepted and its system calls succeed; and from the first rotation on, the
      token stays out of its buffer. */
  ghost predicate Smooth(s: System, a: Action)
    requires s.versions != []
  {
    && (a.Call? ==> a.op.Get? || a.op.Tick?)
    && (a.Proceed? && s.lock == Some(a.task) && a.task in s.tasks && InFlight(s.tasks[a.task]) ==>
          a.ok && (s.tasks[a.task].Awaiting? ==> Accepted(a.reply, Later(s, a.now))))
    && (a.Cancel? && a.task in s.tasks ==> !InFlight(s.tasks[a.task]))
    && (a.PowerLoss? ==> s.durableAt == |s.versions| - 1 && forall t :: t in s.tasks ==> !InFlight(s.tasks[t]))
    && (|s.versions| > 1 ==> BeforeExpiry(s, a))
  }

  ghost predicate AllSmooth(fmt: Format, s: System, actions: seq<Action>)
    requires s.versions != []
    decreases |actions|
  {
    actions != [] ==>
      && Smooth(s, actions[0])
      && (VersionsNonEmpty(fmt, s, actions[0]);
          AllSmooth(fmt, Step(fmt, s, actions[0]), actions[1..]))
  }

  predicate ByRequestOrTick(p: Phase) {
    match p
    case Waiting(op) => op.Get? || op.Tick?
    case Locked(op) => op.Get? || op.Tick?
    case _ => true
  }

  /** Before the first rotation is in the file its grant is only out while it is in flight; after
      that all is calm. */
  ghost predicate AtMostOne(s: System) {
    && s.orphans == map[]
    && (forall t :: t in s.tasks ==> ByRequestOrTick(s.tasks[t]))
    && if |s.versions| == 1 then
         && (forall t :: t in s.tasks ==> !(s.tasks[t].Writing? && s.tasks[t].write.Renamed?))
         && |s.grants| == if s.lock.Some? && s.lock.value in s.tasks && InFlight(s.tasks[s.lock.value]) then 1 else 0
       else |s.versions| == 2 && |s.grants| == 1 && Calm(s)
  }

  lemma OnlyTheHolder(fmt: Format, s: System, who: Identity)
    requires Inv(fmt, s, who)
    ensures forall t :: t in s.tasks && s.lock != Some(t) ==> s.tasks[t].Waiting?
    ensures s.lock.Some? ==> s.lock.value in s.tasks && !s.tasks[s.lock.value].Waiting?
  {
    hide FileOk, PhaseOk;
  }

  /** The writer meets no failure: its next call brings it closer to the rename, or is the rename. */
  lemma WriterStep(fmt: Format, s: System, task: nat, size: nat, reply: Reply, who: Identity)
    requires Inv(fmt, s, who) && s.lock == Some(task) && task in s.tasks
    requires s.tasks[task].Writing? && !s.tasks[task].write.Renamed?
    ensures var t, v := Advance(fmt, s, task, true, size, reply), s.tasks[task].version;
            && t.lock == s.lock && t.orphans == s.orphans && t.grants == s.grants
            && task in t.tasks && t.tasks == s.tasks[task := t.tasks[task]] && t.tasks[task].Writing?
            && t.versions == (if t.tasks[task].write.Renamed? then s.versions + [v] else s.versions)
  {
    HolderIsOk(fmt, s, task, who);
    var v, w := s.tasks[task].version, s.tasks[task].write;
    var next := WriteStep(fmt, s.disk, v.record, w, true, size).1;
    assert !next.WriteFailed?;
    hide Inv, FileOk, WriteOk;
    WritingAdvance(fmt, s, task, true, size, reply);
  }

  lemma HolderEnters(s: System, t: System, task: nat)
    requires AtMostOne(s) && |s.versions| == 1 && s.lock == Some(task) && task in t.tasks
    requires t.tasks == s.tasks[task := t.tasks[task]] && t.lock == s.lock && t.orphans == s.orphans
    requires t.versions == s.versions && |t.grants| == (if InFlight(t.tasks[task]) then 1 else 0)
    requires ByRequestOrTick(t.tasks[task]) && !(t.tasks[task].Writing? && t.tasks[task].write.Renamed?)
    ensures AtMostOne(t)
  {
  }

  lemma HolderFinishes(s: System, task: nat)
    requires AtMostOne(s) && |s.versions| == 1 && s.lock == Some(task) && task in s.tasks && !InFlight(s.tasks[task])
    ensures AtMostOne(Finish(s, task))
  {
  }

  lemma HolderRenames(s: System, t: System, task: nat)
    requires AtMostOne(s) && |s.versions| == 1 && s.lock == Some(task) && task in s.tasks && InFlight(s.tasks[task])
    requires forall k :: k in s.tasks && k != task ==> s.tasks[k].Waiting?
    requires task in t.tasks && t.tasks == s.tasks[task := t.tasks[task]] && t.orphans == s.orphans
    requires t.tasks[task].Writing? && t.tasks[task].write.Renamed? && |t.versions| == 2 && t.grants == s.grants
    ensures AtMostOne(t)
  {
    assert forall k :: k in s.tasks && k != task ==> ByRequestOrTick(s.tasks[k]);
  }

  lemma HolderCounts(s: System, task: nat)
    requires AtMostOne(s) && |s.versions| == 1 && s.lock == Some(task) && task in s.tasks
    ensures |s.grants| == (if InFlight(s.tasks[task]) then 1 else 0)
    ensures ByRequestOrTick(s.tasks[task]) && !(s.tasks[task].Writing? && s.tasks[task].write.Renamed?)
  {
  }

  /** A step of the lock holder before the first rotation is in the file. */
  lemma FirstFlightStep(fmt: Format, s: System, task: nat, ok: bool, size: nat, reply: Reply, who: Identity)
    requires RoundTrips(fmt) && Inv(fmt, s, who) && AtMostOne(s) && |s.versions| == 1
    requires s.lock == Some(task) && task in s.tasks
    requires InFlight(s.tasks[task]) ==> ok && (s.tasks[task].Awaiting? ==> Accepted(reply, s.clock))
    ensures AtMostOne(Advance(fmt, s, task, ok, size, reply))
  {
    HolderIsOk(fmt, s, task, who);
    CurrentIsRead(fmt, s, who);
    OnlyTheHolder(fmt, s, who);
    HolderCounts(s, task);
    var t := Advance(fmt, s, task, ok, size, reply);
    if s.tasks[task].Writing? {
      WriterStep(fmt, s, task, size, reply, who);
    }
    hide Inv, FileOk, PhaseOk, ReadRaw, Readable, TokenExpired, Accepted, ExpiresAtFrom;
    hide RoundTrips, WriteStep, AtMostOne;
    if t.lock.None? {
      HolderFinishes(s, task);
    } else if s.tasks[task].Writing? {
      hide Advance;
      if t.tasks[task].write.Renamed? {
        HolderRenames(s, t, task);
      } else {
        HolderEnters(s, t, task);
      }
    } else {
      HolderEnters(s, t, task);
    }
  }

  lemma AtMostOneStep(fmt: Format, s: System, a: Action, who: Identity)
    requires RoundTrips(fmt) && Inv(fmt, s, who) && AtMostOne(s) && s.versions != [] && Smooth(s, a)
    ensures AtMostOne(Step(fmt, s, a))
  {
    OnlyTheHolder(fmt, s, who);
    hide Inv, Advance, TokenExpired, Accepted, RoundTrips;
    if |s.versions| > 1 {
      CalmStep(fmt, s, a, who);
    } else if a.Proceed? && s.lock == Some(a.task) && a.task in s.tasks {
      LaterKeepsInv(fmt, s, Later(s, a.now), who);
      FirstFlightStep(fmt, s.(clock := Later(s, a.now)), a.task, a.ok, a.size, a.reply, who);
    }
  }

  lemma {:induction false} AtMostOneRun(fmt: Format, s: System, actions: seq<Action>, who: Identity)
    requires RoundTrips(fmt) && Inv(fmt, s, who) && AtMostOne(s) && s.versions != [] && AllSmooth(fmt, s, actions)
    ensures AtMostOne(Run(fmt, s, actions))
    decreases |actions|
  {
    if actions != [] {
      hide Step, Inv, AtMostOne, Smooth;
      VersionsNonEmpty(fmt, s, actions[0]);
      AtMostOneStep(fmt, s, actions[0], who);
      StepKeepsInv(fmt, s, actions[0], who);
      AtMostOneRun(fmt, Step(fmt, s, actions[0]), actions[1..], who);
    }
  }

  /** Single flight: however many requests and ticks find the token inside its buffer, and however
      they interleave, wait, are cancelled before their grant or survive a crash, one grant is sent
      and one rotation stored, until the new token enters its own buffer. */
  lemma OneGrant(fmt: Format, s: System, actions: seq<Action>, who: Identity)
    requires RoundTrips(fmt) && Boot(fmt, s, who) && AllSmooth(fmt, s, actions)
    ensures var t := Run(fmt, s, actions);
            |t.grants| <= 1 && |t.versions| <= 2 && (|t.versions| == 2 ==> |t.grants| == 1)
  {
    hide Run, AllSmooth;
    BootHasInv(fmt, s, who);
    AtMostOneRun(fmt, s, actions, who);
  }
}
