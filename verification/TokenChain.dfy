/** Whether the refresh tokens in the file form one chain, and exactly which runs break it. */
module TokenChain {
  import opened Sequences
  import opened AuthFile
  import opened TokenRotation

  /** A rotation was granted on the refresh token of the version before it. */
  predicate Follows(previous: Record, v: Version) {
    Consistent(v) && (v.origin.Rotated? ==> v.origin.granted == previous.refreshToken)
  }

  ghost predicate Chained(versions: seq<Version>) {
    forall i :: 0 < i < |versions| ==> Follows(versions[i - 1].record, versions[i])
  }

  /** The refresh token that a version brings, unless its rotation kept the one it was granted on. */
  function NewOf(origin: Origin, refresh: string): Option<string> {
    if origin.Pushed? || (origin.Rotated? && origin.reply != "") then Some(refresh) else None
  }

  function NewToken(v: Version): Option<string> {
    NewOf(v.origin, v.record.refreshToken)
  }

  // ---- the schedule ------------------------------------------------------------------------

  /** The version that an action renames into place: the lock holder's, or that of a cancelled task. */
  function Renames(s: System, a: Action): Option<Version> {
    if a.Proceed? && s.lock == Some(a.task) && a.task in s.tasks && a.ok
       && s.tasks[a.task].Writing? && s.tasks[a.task].write.Filled? then Some(s.tasks[a.task].version)
    else if a.Land? && a.ok && a.inode in s.orphans then Some(s.orphans[a.inode])
    else None
  }

  /** A rotation is stale when a new refresh token entered the file since the rotation read its own. */
  ghost predicate Stale(versions: seq<Version>, v: Version) {
    v.origin.Rotated? && exists i :: v.origin.basis <= i < |versions| && NewToken(versions[i]).Some?
  }

  /** No stale rotation is renamed into place, by its lock holder or later. */
  ghost predicate Timely(fmt: Format, s: System, actions: seq<Action>)
    requires s.versions != []
    decreases |actions|
  {
    actions != [] ==>
      && (Renames(s, actions[0]).Some? ==> !Stale(s.versions, Renames(s, actions[0]).value))
      && (VersionsNonEmpty(fmt, s, actions[0]);
          Timely(fmt, Step(fmt, s, actions[0]), actions[1..]))
  }

  /** The refresh token that an action brings into the system: a push, or an accepted reply. */
  function Introduces(s: System, a: Action): Option<string> {
    if a.Call? && a.op.Push? && a.task !in s.tasks && Admissible(a.op) then Some(a.op.refresh)
    else if a.Proceed? && s.lock == Some(a.task) && a.task in s.tasks && s.tasks[a.task].Awaiting?
            && Accepted(a.reply, Later(s, a.now)) && a.reply.refresh != "" then Some(a.reply.refresh)
    else None
  }

  /** Every refresh token pushed or received is new. */
  ghost predicate Fresh(fmt: Format, s: System, actions: seq<Action>)
    requires s.versions != []
    decreases |actions|
  {
    actions != [] ==>
      && (Introduces(s, actions[0]).Some? ==> Introduces(s, actions[0]).value !in s.heard)
      && (VersionsNonEmpty(fmt, s, actions[0]);
          Fresh(fmt, Step(fmt, s, actions[0]), actions[1..]))
  }

  // ---- one rename ---------------------------------------------------------------------------

  /** Each version's new token is none of those before it. */
  ghost predicate Distinct(versions: seq<Version>) {
    forall i, k :: 0 <= i < k < |versions| && NewToken(versions[k]).Some? ==>
      versions[i].record.refreshToken != versions[k].record.refreshToken
  }

  /** As long as no new token enters, the chain keeps the one it has. */
  lemma {:induction false} TokenIsKept(versions: seq<Version>, basis: nat, n: nat)
    requires Chained(versions) && 0 < basis <= n <= |versions|
    requires forall i :: basis <= i < n ==> NewToken(versions[i]).None?
    ensures versions[n - 1].record.refreshToken == versions[basis - 1].record.refreshToken
  {
    if basis < n {
      TokenIsKept(versions, basis, n - 1);
      assert Follows(versions[n - 2].record, versions[n - 1]) && NewToken(versions[n - 1]).None?;
    }
  }

  /** The last new token of a stretch is the one at its end, and no earlier version had it. */
  lemma {:induction false} TokenHasChanged(versions: seq<Version>, basis: nat, i: nat, n: nat)
    requires Chained(versions) && Distinct(versions) && 0 < basis <= i < n <= |versions|
    requires NewToken(versions[i]).Some?
    ensures versions[n - 1].record.refreshToken != versions[basis - 1].record.refreshToken
    decreases n
  {
    if NewToken(versions[n - 1]).None? {
      TokenHasChanged(versions, basis, i, n - 1);
      assert Follows(versions[n - 2].record, versions[n - 1]);
    }
  }

  /** A version extends the chain unless it is stale; with new tokens distinct, a stale one breaks it. */
  lemma OneMoreLink(versions: seq<Version>, v: Version)
    requires versions != [] && Chained(versions) && Consistent(v) && Based(versions, v.origin)
    ensures !Stale(versions, v) ==> Chained(versions + [v])
    ensures Distinct(versions) && Stale(versions, v) ==> !Chained(versions + [v])
  {
    var n, more := |versions|, versions + [v];
    assert more[n] == v && more[n - 1] == Last(versions);
    if Stale(versions, v) {
      var i :| v.origin.basis <= i < n && NewToken(versions[i]).Some?;
      if Distinct(versions) {
        TokenHasChanged(versions, v.origin.basis, i, n);
        assert !Follows(more[n - 1].record, more[n]);
      }
    } else {
      if v.origin.Rotated? {
        TokenIsKept(versions, v.origin.basis, n);
      }
    }
  }

  // ---- tokens in hand -------------------------------------------------------------------------

  /** Who has a new refresh token that is not in the file yet: a task, or a rename still in flight. */
  datatype Holder = Task(id: nat) | Orphan(inode: nat)

  function InHand(p: Phase): Option<string> {
    match p
    case Waiting(op) => if op.Push? then Some(op.refresh) else None
    case Locked(op) => if op.Push? then Some(op.refresh) else None
    case Granting(_, _, _, _) => None
    case Awaiting(_, _, _) => None
    case Persisting(_, refresh, _, origin) => NewOf(origin, refresh)
    case Writing(v, w, _) => if w.Renamed? then None else NewToken(v)
  }

  function HeldBy(s: System, h: Holder): Option<string> {
    match h
    case Task(t) => if t in s.tasks then InHand(s.tasks[t]) else None
    case Orphan(i) => if i in s.orphans then NewToken(s.orphans[i]) else None
  }

  /** No two holders have the same token, and no version has one of theirs. */
  ghost predicate Novel(s: System) {
    && (forall i :: 0 <= i < |s.versions| ==> s.versions[i].record.refreshToken in s.heard)
    && (forall h :: HeldBy(s, h).Some? ==>
          && HeldBy(s, h).value in s.heard
          && forall i :: 0 <= i < |s.versions| ==> s.versions[i].record.refreshToken != HeldBy(s, h).value)
    && (forall g, h :: g != h && HeldBy(s, g).Some? ==> HeldBy(s, g) != HeldBy(s, h))
    && Distinct(s.versions)
  }

  /** Tokens are only dropped. */
  lemma DroppedIsNovel(s: System, t: System)
    requires Novel(s) && t.versions <= s.versions && s.heard <= t.heard
    requires forall h :: HeldBy(t, h).Some? ==> HeldBy(t, h) == HeldBy(s, h)
    ensures Novel(t)
  {
    hide HeldBy;
  }

  /** One holder receives a token that was never heard of. */
  lemma ReceivedIsNovel(s: System, t: System, taker: Holder, token: string)
    requires Novel(s) && t.versions == s.versions && token !in s.heard && t.heard == s.heard + {token}
    requires HeldBy(t, taker) == Some(token) && forall h :: h != taker ==> HeldBy(t, h) == HeldBy(s, h)
    ensures Novel(t)
  {
    hide HeldBy;
  }

  /** One holder hands its token to another that had none. */
  lemma PassedIsNovel(s: System, t: System, giver: Holder, taker: Holder)
    requires Novel(s) && t.versions == s.versions && t.heard == s.heard && HeldBy(t, giver).None?
    requires HeldBy(t, taker) == HeldBy(s, giver)
    requires forall h :: h != giver && h != taker ==> HeldBy(t, h) == HeldBy(s, h)
    ensures Novel(t)
  {
    hide HeldBy;
  }

  /** One holder's version enters the file. */
  lemma RenamedIsNovel(s: System, t: System, giver: Holder, v: Version)
    requires Novel(s) && t.versions == s.versions + [v] && t.heard == s.heard
    requires Consistent(v) && Based(s.versions, v.origin) && NewToken(v) == HeldBy(s, giver)
    requires HeldBy(t, giver).None? && forall h :: h != giver ==> HeldBy(t, h) == HeldBy(s, h)
    ensures Novel(t)
  {
    hide HeldBy;
    var n := |s.versions|;
    assert t.versions[n] == v && forall i :: 0 <= i < n ==> t.versions[i] == s.versions[i];
    if NewToken(v).None? {
      assert v.record.refreshToken == s.versions[v.origin.basis - 1].record.refreshToken;
    }
  }

  /** A step of the lock holder that neither takes a reply nor renames. */
  lemma HolderKeepsNovel(fmt: Format, s: System, task: nat, ok: bool, size: nat, reply: Reply, who: Identity)
    requires RoundTrips(fmt) && Inv(fmt, s, who) && Novel(s) && s.lock == Some(task) && task in s.tasks
    requires !s.tasks[task].Awaiting? && !s.tasks[task].Writing? && !s.tasks[task].Waiting?
    ensures Novel(Advance(fmt, s, task, ok, size, reply))
  {
    HolderIsOk(fmt, s, task, who);
    CurrentIsRead(fmt, s, who);
    var t := Advance(fmt, s, task, ok, size, reply);
    hide Inv, ReadRaw, RoundTrips, Novel, Readable, TokenExpired, PhaseOk, FileOk;
    DroppedIsNovel(s, t);
  }

  lemma ReplyKeepsNovel(fmt: Format, s: System, task: nat, ok: bool, size: nat, reply: Reply)
    requires s.versions != [] && Novel(s) && s.lock == Some(task) && task in s.tasks && s.tasks[task].Awaiting?
    requires Accepted(reply, s.clock) && reply.refresh != "" ==> reply.refresh !in s.heard
    ensures Novel(Advance(fmt, s, task, ok, size, reply))
  {
    var t := Advance(fmt, s, task, ok, size, reply);
    hide Novel, Accepted, ExpiresAtFrom;
    if Accepted(reply, s.clock) && reply.refresh != "" {
      ReceivedIsNovel(s, t, Task(task), reply.refresh);
    } else {
      DroppedIsNovel(s, t);
    }
  }

  lemma WriterHearsNothing(fmt: Format, s: System, task: nat, ok: bool, size: nat, reply: Reply)
    requires s.versions != [] && task in s.tasks && s.tasks[task].Writing?
    ensures Advance(fmt, s, task, ok, size, reply).heard == s.heard
  {
    hide WriteStep;
  }

  lemma WriterIsOk(fmt: Format, s: System, task: nat, who: Identity)
    requires Inv(fmt, s, who) && task in s.tasks && s.tasks[task].Writing?
    ensures s.versions != [] && Consistent(s.tasks[task].version) && Based(s.versions, s.tasks[task].version.origin)
    ensures !s.tasks[task].write.WriteFailed? && !s.tasks[task].write.Written?
  {
    HolderIsOk(fmt, s, task, who);
  }

  lemma WriterKeepsNovel(fmt: Format, s: System, task: nat, ok: bool, size: nat, reply: Reply, who: Identity)
    requires Inv(fmt, s, who) && Novel(s) && s.lock == Some(task) && task in s.tasks && s.tasks[task].Writing?
    ensures Novel(Advance(fmt, s, task, ok, size, reply))
  {
    hide Inv, Novel, Advance, WriteStep, Consistent, Based;
    WriterIsOk(fmt, s, task, who);
    var v := s.tasks[task].version;
    var t := Advance(fmt, s, task, ok, size, reply);
    WritingAdvance(fmt, s, task, ok, size, reply);
    WriterHearsNothing(fmt, s, task, ok, size, reply);
    if t.versions == s.versions {
      DroppedIsNovel(s, t);
    } else {
      RenamedIsNovel(s, t, Task(task), v);
    }
  }

  lemma CancelKeepsNovel(fmt: Format, s: System, task: nat, inFlight: bool, who: Identity)
    requires Inv(fmt, s, who) && Novel(s)
    ensures Novel(Step(fmt, s, Cancel(task, inFlight)))
  {
    var t := Step(fmt, s, Cancel(task, inFlight));
    if s.lock == Some(task) {
      HolderIsOk(fmt, s, task, who);
    }
    if t.orphans == s.orphans {
      hide Novel, Inv;
      DroppedIsNovel(s, t);
    } else {
      var inode := s.tasks[task].write.inode;
      assert inode !in s.orphans;
      hide Novel, Inv;
      PassedIsNovel(s, t, Task(task), Orphan(inode));
    }
  }

  lemma LandKeepsNovel(fmt: Format, s: System, inode: nat, ok: bool, who: Identity)
    requires Inv(fmt, s, who) && Novel(s)
    ensures Novel(Step(fmt, s, Land(inode, ok)))
  {
    var t := Step(fmt, s, Land(inode, ok));
    if inode in s.orphans && ok {
      assert Consistent(s.orphans[inode]) && Based(s.versions, s.orphans[inode].origin);
      hide Novel, Inv;
      RenamedIsNovel(s, t, Orphan(inode), s.orphans[inode]);
    } else {
      hide Novel, Inv;
      DroppedIsNovel(s, t);
    }
  }

  lemma CallKeepsNovel(fmt: Format, s: System, task: nat, op: Op)
    requires s.versions != [] && Novel(s)
    requires Introduces(s, Call(task, op)).Some? ==> Introduces(s, Call(task, op)).value !in s.heard
    ensures Novel(Step(fmt, s, Call(task, op)))
  {
    var t := Step(fmt, s, Call(task, op));
    hide Novel;
    if Introduces(s, Call(task, op)).Some? {
      ReceivedIsNovel(s, t, Task(task), op.refresh);
    } else {
      DroppedIsNovel(s, t);
    }
  }

  lemma StepKeepsNovel(fmt: Format, s: System, a: Action, who: Identity)
    requires RoundTrips(fmt) && Inv(fmt, s, who) && Novel(s)
    requires Introduces(s, a).Some? ==> Introduces(s, a).value !in s.heard
    ensures Novel(Step(fmt, s, a))
  {
    InvMeansVersions(fmt, s, who);
    hide Inv, Advance, Novel, RoundTrips;
    match a
    case Call(task, op) => CallKeepsNovel(fmt, s, task, op);
    case Proceed(task, now, ok, size, reply) =>
      if s.lock == Some(task) && task in s.tasks {
        var u := s.(clock := Later(s, now));
        assert Novel(u) by {
          DroppedIsNovel(s, u);
        }
        LaterKeepsInv(fmt, s, Later(s, now), who);
        var p := s.tasks[task];
        if p.Awaiting? {
          ReplyKeepsNovel(fmt, u, task, ok, size, reply);
        } else if p.Writing? {
          WriterKeepsNovel(fmt, u, task, ok, size, reply, who);
        } else {
          HolderIsPast(fmt, s, task, who);
          HolderKeepsNovel(fmt, u, task, ok, size, reply, who);
        }
      }
    case Cancel(task, inFlight) => CancelKeepsNovel(fmt, s, task, inFlight, who);
    case Land(inode, ok) => LandKeepsNovel(fmt, s, inode, ok, who);
    case Acquire(_) => DroppedIsNovel(s, Step(fmt, s, a));
    case Writeback => DroppedIsNovel(s, Step(fmt, s, a));
    case PowerLoss(_) => DroppedIsNovel(s, Step(fmt, s, a));
  }

  lemma HolderIsPast(fmt: Format, s: System, task: nat, who: Identity)
    requires Inv(fmt, s, who) && s.lock == Some(task) && task in s.tasks
    ensures !s.tasks[task].Waiting?
  {
    hide FileOk, PhaseOk;
  }

  // ---- the chain over whole runs ------------------------------------------------------------------

  /** What a step does to the history: a rename appends its version, a crash cuts, nothing else. */
  lemma HistoryStep(fmt: Format, s: System, a: Action, who: Identity)
    requires Inv(fmt, s, who)
    ensures var t, v := Step(fmt, s, a), Renames(s, a);
            if v.Some? then
              t.versions == s.versions + [v.value] && Consistent(v.value) && Based(s.versions, v.value.origin)
            else t.versions <= s.versions
  {
    InvMeansVersions(fmt, s, who);
    if a.Proceed? && s.lock == Some(a.task) && a.task in s.tasks {
      var u := s.(clock := Later(s, a.now));
      HolderIsOk(fmt, s, a.task, who);
      hide Inv, FileOk, WriteOk, WriteStep, AfterRead, Usable;
      if s.tasks[a.task].Writing? {
        FilledIsRenamed(fmt, u, a.task, a.ok, a.size, a.reply);
      } else if s.tasks[a.task].Locked? {
        AfterReadFrame(fmt, u, a.task, s.tasks[a.task].op);
      }
    }
  }

  lemma FilledIsRenamed(fmt: Format, s: System, task: nat, ok: bool, size: nat, reply: Reply)
    requires s.versions != [] && s.lock == Some(task) && task in s.tasks && s.tasks[task].Writing?
    requires !s.tasks[task].write.WriteFailed? && !s.tasks[task].write.Written?
    ensures Advance(fmt, s, task, ok, size, reply).versions
         == if ok && s.tasks[task].write.Filled? then s.versions + [s.tasks[task].version] else s.versions
  {
    WritingAdvance(fmt, s, task, ok, size, reply);
  }

  lemma StepChains(fmt: Format, s: System, a: Action, who: Identity)
    requires Inv(fmt, s, who) && Chained(s.versions)
    ensures var v := Renames(s, a);
            && (v.None? || !Stale(s.versions, v.value) ==> Chained(Step(fmt, s, a).versions))
            && (Novel(s) && v.Some? && Stale(s.versions, v.value) ==> !Chained(Step(fmt, s, a).versions))
  {
    hide Step, Stale, Inv, Renames, Follows, Consistent, Based;
    InvMeansVersions(fmt, s, who);
    HistoryStep(fmt, s, a, who);
    if Renames(s, a).Some? {
      OneMoreLink(s.versions, Renames(s, a).value);
    }
  }

  /** The history is a chain at every point of the run. */
  ghost predicate AlwaysChained(fmt: Format, s: System, actions: seq<Action>)
    requires s.versions != []
  {
    forall n :: 0 <= n <= |actions| ==> Chained(Run(fmt, s, actions[..n]).versions)
  }

  lemma AlwaysChainedFront(fmt: Format, s: System, actions: seq<Action>)
    requires s.versions != [] && actions != []
    ensures Step(fmt, s, actions[0]).versions != []
    ensures AlwaysChained(fmt, s, actions)
       <==> Chained(s.versions) && AlwaysChained(fmt, Step(fmt, s, actions[0]), actions[1..])
  {
    hide Chained, Step;
    VersionsNonEmpty(fmt, s, actions[0]);
    var t, rest := Step(fmt, s, actions[0]), actions[1..];
    assert actions[..0] == [] && Run(fmt, s, []) == s;
    if AlwaysChained(fmt, s, actions) {
      forall n | 0 <= n <= |rest|
        ensures Chained(Run(fmt, t, rest[..n]).versions)
      {
        RunFront(fmt, s, actions, n);
      }
    }
    if Chained(s.versions) && AlwaysChained(fmt, t, rest) {
      forall n | 0 <= n <= |actions|
        ensures Chained(Run(fmt, s, actions[..n]).versions)
      {
        if n > 0 {
          RunFront(fmt, s, actions, n - 1);
        }
      }
    }
  }

  lemma RunFront(fmt: Format, s: System, actions: seq<Action>, n: nat)
    requires s.versions != [] && n < |actions|
    ensures Step(fmt, s, actions[0]).versions != []
    ensures Run(fmt, s, actions[..n + 1]) == Run(fmt, Step(fmt, s, actions[0]), actions[1..][..n])
  {
    VersionsNonEmpty(fmt, s, actions[0]);
    assert actions[..n + 1][1..] == actions[1..][..n];
  }

  /** From a state with a chain: a run without a stale rename keeps it, and a run in which every
      token brought in is new keeps it only so. */
  lemma {:induction false} ChainedWhileTimely(fmt: Format, s: System, actions: seq<Action>, who: Identity)
    requires RoundTrips(fmt) && Inv(fmt, s, who) && s.versions != [] && Chained(s.versions)
    ensures Timely(fmt, s, actions) ==> AlwaysChained(fmt, s, actions)
    ensures Novel(s) && Fresh(fmt, s, actions) && AlwaysChained(fmt, s, actions) ==> Timely(fmt, s, actions)
    decreases |actions|
  {
    if actions == [] {
      assert forall n :: 0 <= n <= |actions| ==> actions[..n] == [];
    } else {
      hide Inv, Novel, Chained, Step, Stale, AlwaysChained, Introduces, Renames, RoundTrips;
      var t, rest := Step(fmt, s, actions[0]), actions[1..];
      AlwaysChainedFront(fmt, s, actions);
      StepChains(fmt, s, actions[0], who);
      StepKeepsInv(fmt, s, actions[0], who);
      if Novel(s) && Fresh(fmt, s, actions) {
        StepKeepsNovel(fmt, s, actions[0], who);
      }
      if Chained(t.versions) {
        ChainedWhileTimely(fmt, t, rest, who);
      } else {
        NotChainedNow(fmt, t, rest);
      }
    }
  }

  lemma NotChainedNow(fmt: Format, s: System, actions: seq<Action>)
    requires s.versions != [] && !Chained(s.versions)
    ensures !AlwaysChained(fmt, s, actions)
  {
    assert actions[..0] == [] && Run(fmt, s, actions[..0]) == s;
  }

  lemma BootIsChained(fmt: Format, s: System, who: Identity)
    requires Boot(fmt, s, who)
    ensures Chained(s.versions) && Novel(s) && s.versions != []
  {
  }

  /** The tokens form one chain over all interleavings, cancellations and crashes in which no stale
      rotation is renamed into place: each rotation in the file's history was granted on exactly
      the refresh token of the version before it. */
  lemma TokensFormOneChain(fmt: Format, s: System, actions: seq<Action>, who: Identity)
    requires RoundTrips(fmt) && Boot(fmt, s, who) && Timely(fmt, s, actions)
    ensures AlwaysChained(fmt, s, actions) && Chained(Run(fmt, s, actions).versions)
  {
    hide Run, Chained, Timely;
    BootHasInv(fmt, s, who);
    BootIsChained(fmt, s, who);
    ChainedWhileTimely(fmt, s, actions, who);
    assert actions[..|actions|] == actions;
  }

  /** When every refresh token pushed or received is new, that is the exact condition: the tokens
      form one chain at every point of a run if and only if no rotation is renamed into place, by
      its lock holder or later, after a new token entered the file since the rotation read its own. */
  lemma ChainedExactlyWhenTimely(fmt: Format, s: System, actions: seq<Action>, who: Identity)
    requires RoundTrips(fmt) && Boot(fmt, s, who) && Fresh(fmt, s, actions)
    ensures AlwaysChained(fmt, s, actions) <==> Timely(fmt, s, actions)
  {
    hide AlwaysChained, Timely, Chained, Novel;
    BootHasInv(fmt, s, who);
    BootIsChained(fmt, s, who);
    ChainedWhileTimely(fmt, s, actions, who);
  }

  lemma {:induction false} TimelyAppend(fmt: Format, s: System, a: seq<Action>, b: seq<Action>)
    requires s.versions != [] && Timely(fmt, s, a + b)
    ensures Timely(fmt, s, a) && Run(fmt, s, a + b) == Run(fmt, Run(fmt, s, a), b)
    decreases |a|
  {
    hide Step, Renames, Stale;
    if a == [] {
      assert a + b == b;
    } else {
      VersionsNonEmpty(fmt, s, a[0]);
      assert (a + b)[0] == a[0] && (a + b)[1..] == a[1..] + b;
      TimelyAppend(fmt, Step(fmt, s, a[0]), a[1..], b);
    }
  }

  /** In such runs a writer that was told Ok is never undone: whatever happens later, the record that
      the file holds, and the one a crash leaves, is the acknowledged one or a later link of its
      chain. */
  lemma AcknowledgedIsNeverUndone(fmt: Format, s: System, actions: seq<Action>, more: seq<Action>, who: Identity,
                                  junk: map<nat, bytes>)
    requires RoundTrips(fmt) && Boot(fmt, s, who) && Timely(fmt, s, actions + more)
    ensures var t, u := Run(fmt, s, actions), Run(fmt, s, actions + more);
            && t.acked <= u.durableAt < |u.versions| && t.acked < |t.versions|
            && u.versions[t.acked] == t.versions[t.acked] && Chained(u.versions)
            && ReadRaw(fmt, u.disk) == Some(Last(u.versions).record)
            && ReadRaw(fmt, AuthFile.Crash(u.disk, junk)) == Some(u.versions[u.durableAt].record)
  {
    hide Run, Timely, Chained, AuthFile.Crash, DiskHolds, Usable;
    TokensFormOneChain(fmt, s, actions + more, who);
    TimelyAppend(fmt, s, actions, more);
    BootHasInv(fmt, s, who);
    RunKeepsInv(fmt, s, actions, who);
    RunKeepsInv(fmt, s, actions + more, who);
    var t, u := Run(fmt, s, actions), Run(fmt, s, actions + more);
    AcknowledgedIsDurable(fmt, t, more);
    assert u.versions[..t.acked + 1][t.acked] == t.versions[..t.acked + 1][t.acked];
    CrashLeavesDurableRecord(fmt, u.disk, junk, Last(u.versions).record, u.versions[u.durableAt].record);
  }

  // ---- how the chain breaks -----------------------------------------------------------------------

  lemma {:induction false} RunAppend(fmt: Format, s: System, a: seq<Action>, b: seq<Action>)
    requires s.versions != []
    ensures Run(fmt, s, a + b) == Run(fmt, Run(fmt, s, a), b)
    decreases |a|
  {
    if a == [] {
      assert a + b == b;
    } else {
      VersionsNonEmpty(fmt, s, a[0]);
      assert (a + b)[0] == a[0] && (a + b)[1..] == a[1..] + b;
      RunAppend(fmt, Step(fmt, s, a[0]), a[1..], b);
    }
  }

  lemma RunOne(fmt: Format, s: System, a: Action)
    requires s.versions != []
    ensures Run(fmt, s, [a]) == Step(fmt, s, a)
  {
    VersionsNonEmpty(fmt, s, a);
    assert [a][1..] == [];
  }

  /** The lock holder has a rename in flight, and `a.task` waits to refresh and will meet no failure. */
  ghost predicate AboutToBeOvertaken(fmt: Format, s: System, task: nat, a: Action, who: Identity) {
    && RoundTrips(fmt) && Inv(fmt, s, who) && s.versions != [] && s.lock == Some(task) && task in s.tasks
    && s.tasks[task].Writing? && s.tasks[task].write.Filled?
    && a.Proceed? && a.task != task && a.task in s.tasks && s.tasks[a.task].Waiting?
    && (var op := s.tasks[a.task].op;
        op.Force? || ((op.Get? || op.Tick?) && TokenExpired(Last(s.versions).record.expiresAt, s.clock)))
    && a.ok && a.size == 0 && a.now <= s.clock
    && a.reply.Tokens? && a.reply.access != "" && a.reply.expiresIn > 0
  }

  function Overtaking(task: nat, other: nat): seq<Action> {
    [Cancel(task, true)] + [Acquire(other)]
  }

  /** The holder is cancelled with its rename in flight, and the other task is given the lock. */
  lemma Overtaken(fmt: Format, s: System, task: nat, a: Action, who: Identity) returns (t: System)
    requires AboutToBeOvertaken(fmt, s, task, a, who)
    ensures t.versions != [] && Inv(fmt, t, who) && t == Run(fmt, s, Overtaking(task, a.task))
    ensures t.versions == s.versions && t.grants == s.grants && t.clock == s.clock
    ensures t.lock == Some(a.task) && a.task in t.tasks && t.tasks[a.task] == Locked(s.tasks[a.task].op)
    ensures t.orphans == s.orphans[s.tasks[task].write.inode := s.tasks[task].version]
  {
    hide Run, Inv;
    RunAppend(fmt, s, [Cancel(task, true)], [Acquire(a.task)]);
    RunOne(fmt, s, Cancel(task, true));
    var u := Step(fmt, s, Cancel(task, true));
    RunOne(fmt, u, Acquire(a.task));
    t := Step(fmt, u, Acquire(a.task));
    StepKeepsInv(fmt, s, Cancel(task, true), who);
    StepKeepsInv(fmt, u, Acquire(a.task), who);
  }

  /** The chain breaks at the landing: a rotation is cancelled while its rename is in flight, another
      task refreshes with the same token before it lands, and the landing rename then replaces the
      acknowledged record by the older rotation. */
  lemma LateRenameBreaksTheChain(fmt: Format, s: System, task: nat, a: Action, who: Identity)
    requires AboutToBeOvertaken(fmt, s, task, a, who) && s.tasks[task].version.origin.Rotated?
    requires s.tasks[task].version.origin.granted == Last(s.versions).record.refreshToken
    requires a.reply.refresh != "" && a.reply.refresh != Last(s.versions).record.refreshToken
    ensures var current, v := Last(s.versions).record, s.tasks[task].version;
            var landing := Land(s.tasks[task].write.inode, true);
            var t := Run(fmt, s, Overtaking(task, a.task) + Repeat(a, 9) + [landing]);
            && t.grants == s.grants + [Grant(current.refreshToken, s.clock)]
            && t.versions == s.versions + [RotatedVersion(current, |s.versions|, a.reply, s.clock)] + [v]
            && t.acked == |s.versions| && !Chained(t.versions)
  {
    hide Run, Inv, Chained, Repeat, Overtaking;
    var v, inode := s.tasks[task].version, s.tasks[task].write.inode;
    var t := Overtaken(fmt, s, task, a, who);
    RefreshCompletes(fmt, t, a.task, a, who);
    var u := Run(fmt, t, Repeat(a, 9));
    RunAppend(fmt, s, Overtaking(task, a.task), Repeat(a, 9));
    RunAppend(fmt, s, Overtaking(task, a.task) + Repeat(a, 9), [Land(inode, true)]);
    RunOne(fmt, u, Land(inode, true));
    LinkBroken(Step(fmt, u, Land(inode, true)).versions, |s.versions|);
  }

  lemma LinkKept(versions: seq<Version>, v: Version)
    ensures versions != [] && Chained(versions) && Follows(Last(versions).record, v) ==> Chained(versions + [v])
  {
    hide Follows;
  }

  lemma LinkBroken(versions: seq<Version>, i: nat)
    requires i + 1 < |versions| && versions[i + 1].origin.Rotated?
    requires versions[i + 1].origin.granted != versions[i].record.refreshToken
    ensures !Chained(versions)
  {
  }

  /** Read and grant. */
  lemma GrantSent(fmt: Format, s: System, task: nat, a: Action, current: Record) returns (t: System)
    requires s.versions != [] && s.lock == Some(task)
    requires task in s.tasks && s.tasks[task].Locked? && !s.tasks[task].op.Push?
    requires a.Proceed? && a.task == task && a.ok && a.now <= s.clock
    requires ReadRaw(fmt, s.disk) == Some(current) && Readable(current)
    requires s.tasks[task].op.Force? || TokenExpired(current.expiresAt, s.clock)
    ensures t == Run(fmt, s, Repeat(a, 2))
    ensures At(s, t, task, Awaiting(s.tasks[task].op, current.refreshToken, |s.versions|),
               s.grants + [Grant(current.refreshToken, s.clock)])
  {
    hide Run, Step, ReadRaw, Repeat, TokenExpired;
    var s1 := Step(fmt, s, a);
    ReadStep(fmt, s, task, a, current);
    RunRepeat(fmt, s, a, 2);
    t := Step(fmt, s1, a);
    GrantStep(fmt, s1, task, a);
    RunRepeat(fmt, s1, a, 1);
    RunNone(fmt, t, a);
  }

  lemma RunNone(fmt: Format, s: System, a: Action)
    requires s.versions != []
    ensures Run(fmt, s, Repeat(a, 0)) == s
  {
  }

  /** Take the reply, read again and write. */
  lemma ReplyStored(fmt: Format, s: System, task: nat, a: Action, current: Record)
    requires s.versions != [] && s.lock == Some(task) && task in s.tasks && s.tasks[task].Awaiting?
    requires a.Proceed? && a.task == task && a.ok && a.size == 0 && a.now <= s.clock
    requires a.reply.Tokens? && a.reply.access != "" && a.reply.expiresIn > 0
    requires ReadRaw(fmt, s.disk) == Some(current)
    ensures var t := Run(fmt, s, Repeat(a, 7));
            && t.grants == s.grants && |t.versions| == |s.versions| + 1 && s.versions <= t.versions
            && Last(t.versions).origin == Rotated(s.tasks[task].token, a.reply.refresh, s.tasks[task].basis)
  {
    hide Run, Step, ReadRaw, Repeat, At, Stored;
    var s1 := Step(fmt, s, a);
    var p := Received(s.tasks[task].token, s.tasks[task].basis, a.reply, s.clock);
    ReplyStep(fmt, s, task, a);
    AtMeans(s, s1, task, p, s.grants);
    RunRepeat(fmt, s, a, 7);
    AtSameDisk(s, s1, task, p, s.grants);
    var s2 := Step(fmt, s1, a);
    PersistStep(fmt, s1, task, a, current);
    var r := current.(accessToken := p.access, refreshToken := p.refresh, expiresAt := p.expiresAt);
    AtMeans(s1, s2, task, Writing(Version(r, p.origin), ToCreate, 0), s1.grants);
    RunRepeat(fmt, s1, a, 6);
    WriteCompletes(fmt, s2, task, a, Version(r, p.origin));
    StoredMeans(s2, Run(fmt, s2, Repeat(a, 5)), Version(r, p.origin));
  }

  lemma AtSameDisk(s: System, t: System, task: nat, p: Phase, grants: seq<Grant>)
    requires At(s, t, task, p, grants)
    ensures t.disk == s.disk
  {
  }

  /** The other task has sent its grant when the rename of the cancelled one lands. */
  lemma LandedUnderARefresh(fmt: Format, s: System, task: nat, a: Action, who: Identity) returns (t: System)
    requires AboutToBeOvertaken(fmt, s, task, a, who)
    ensures var token, landing := Last(s.versions).record.refreshToken, Land(s.tasks[task].write.inode, true);
            && t == Run(fmt, s, Overtaking(task, a.task) + Repeat(a, 2) + [landing])
            && t.versions == s.versions + [s.tasks[task].version] && t.grants == s.grants + [Grant(token, s.clock)]
            && Inv(fmt, t, who) && t.clock == s.clock && t.lock == Some(a.task) && a.task in t.tasks
            && t.tasks[a.task] == Awaiting(s.tasks[a.task].op, token, |s.versions|)
  {
    hide Run, Inv, Repeat, Overtaking, At;
    var token, landing := Last(s.versions).record.refreshToken, Land(s.tasks[task].write.inode, true);
    var t0 := Overtaken(fmt, s, task, a, who);
    InvMeansVersions(fmt, t0, who);
    CurrentIsRead(fmt, t0, who);
    var t1 := GrantSent(fmt, t0, a.task, a, Last(s.versions).record);
    AtMeans(t0, t1, a.task, Awaiting(s.tasks[a.task].op, token, |s.versions|), s.grants + [Grant(token, s.clock)]);
    RunKeepsInv(fmt, t0, Repeat(a, 2), who);
    t := Step(fmt, t1, landing);
    StepKeepsInv(fmt, t1, landing, who);
    RunAppend(fmt, s, Overtaking(task, a.task), Repeat(a, 2));
    RunAppend(fmt, s, Overtaking(task, a.task) + Repeat(a, 2), [landing]);
    RunOne(fmt, t1, landing);
  }

  /** The chain breaks after the landing: the rename of a cancelled task brings a token of its own
      into the file while another task waits for the reply to its grant. The landing itself keeps
      the chain if the cancelled task was granted on the same token, which is then sent twice; the
      other task's own rename breaks it. */
  lemma LandingUnderARefreshBreaksTheChain(fmt: Format, s: System, task: nat, a: Action, who: Identity)
    requires AboutToBeOvertaken(fmt, s, task, a, who)
    requires s.tasks[task].version.record.refreshToken != Last(s.versions).record.refreshToken
    ensures var token, v := Last(s.versions).record.refreshToken, s.tasks[task].version;
            var landing := Land(s.tasks[task].write.inode, true);
            var t := Run(fmt, s, Overtaking(task, a.task) + Repeat(a, 2) + [landing]);
            var u := Run(fmt, s, Overtaking(task, a.task) + Repeat(a, 2) + [landing] + Repeat(a, 7));
            && t.versions == s.versions + [v]
            && (Chained(s.versions) && Follows(Last(s.versions).record, v) ==> Chained(t.versions))
            && t.grants == u.grants == s.grants + [Grant(token, s.clock)]
            && |u.versions| == |s.versions| + 2 && u.versions[|s.versions|] == v && !Chained(u.versions)
  {
    hide Run, Inv, Chained, Repeat, Overtaking, Follows, RoundTrips;
    var v, token := s.tasks[task].version, Last(s.versions).record.refreshToken;
    var t := LandedUnderARefresh(fmt, s, task, a, who);
    var before := Overtaking(task, a.task) + Repeat(a, 2) + [Land(s.tasks[task].write.inode, true)];
    RunAppend(fmt, s, before, Repeat(a, 7));
    LinkKept(s.versions, v);
    AnswerStored(fmt, t, a, who);
    SecondLinkBroken(s.versions, v, Run(fmt, t, Repeat(a, 7)).versions, token);
  }

  lemma AnswerStored(fmt: Format, s: System, a: Action, who: Identity)
    requires RoundTrips(fmt) && Inv(fmt, s, who) && s.versions != []
    requires a.Proceed? && s.lock == Some(a.task) && a.task in s.tasks && s.tasks[a.task].Awaiting?
    requires a.ok && a.size == 0 && a.now <= s.clock
    requires a.reply.Tokens? && a.reply.access != "" && a.reply.expiresIn > 0
    ensures var t := Run(fmt, s, Repeat(a, 7));
            && t.grants == s.grants && |t.versions| == |s.versions| + 1 && s.versions <= t.versions
            && Last(t.versions).origin == Rotated(s.tasks[a.task].token, a.reply.refresh, s.tasks[a.task].basis)
  {
    InvMeansVersions(fmt, s, who);
    CurrentIsRead(fmt, s, who);
    hide Inv, FileOk, Run, Repeat, ReadRaw;
    ReplyStored(fmt, s, a.task, a, Last(s.versions).record);
  }

  lemma SecondLinkBroken(versions: seq<Version>, v: Version, more: seq<Version>, token: string)
    requires |more| == |versions| + 2 && versions + [v] <= more
    requires Last(more).origin.Rotated? && Last(more).origin.granted == token && v.record.refreshToken != token
    ensures more[|versions|] == v && !Chained(more)
  {
    assert (versions + [v])[|versions|] == more[|versions|];
    LinkBroken(more, |versions|);
  }
}
