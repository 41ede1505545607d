/** Many tasks sharing one mutex and one credentials file: token refresh (section 6 of RFC 6749),
    admin pushes, crashes and restarts, as a step protocol. */
module TokenRotation {
  import opened Sequences
  import opened AuthFile

  const TOKEN_EXPIRY_BUFFER_MS: int := 60 * 60 * 1000
  const I64_MAX: int := 0x7FFF_FFFF_FFFF_FFFF

  predicate TokenExpired(expiresAt: int, now: int) {
    now >= expiresAt - TOKEN_EXPIRY_BUFFER_MS
  }

  /** `now` plus the lifetime in seconds, saturating; a non-positive lifetime is refused. */
  function ExpiresAtFrom(now: int, expiresIn: int): Option<int> {
    if expiresIn <= 0 then None
    else
      var ms := if expiresIn * 1000 > I64_MAX then I64_MAX else expiresIn * 1000;
      Some(if now + ms > I64_MAX then I64_MAX else now + ms)
  }

  /** `Get` serves a request, `Tick` is the background check, `Force` the refresh after a 401,
      `Push` an admin update. */
  datatype Op =
    | Get
    | Tick
    | Force
    | Push(access: string, refresh: string, expiresAt: int, userId: Option<string>)

  /** Where a version of the record came from: a rotation sent the grant token `granted`, read when
      the file had held `basis` versions, and received the refresh token `reply`. */
  datatype Origin = Initial | Pushed | Rotated(granted: string, reply: string, basis: nat)

  datatype Version = Version(record: Record, origin: Origin)

  datatype Phase =
    | Waiting(op: Op)
    | Locked(op: Op)
    | Granting(op: Op, token: string, checkedAt: int, basis: nat)
    | Awaiting(op: Op, token: string, basis: nat)
    | Persisting(access: string, refresh: string, expiresAt: int, origin: Origin)
    | Writing(version: Version, write: Write, place: nat)     // its place in the history, once renamed

  datatype Reply = Refused | Tokens(access: string, refresh: string, expiresIn: int)

  datatype Grant = Grant(token: string, at: int)

  /** `orphans` are the renames, by inode, that the runtime still carries out for a cancelled call;
      `versions` are the records the live file has held since it was first read back, and
      `durableAt` is the one a crash would restore; `acked` is the last one that was durable when a
      writer was told its record is stored. `heard` are the refresh tokens that were in the file at
      the start, pushed or received. */
  datatype System = System(disk: Disk, lock: Option<nat>, tasks: map<nat, Phase>, clock: int,
                           orphans: map<nat, Version>,
                           versions: seq<Version>, durableAt: nat, acked: nat,
                           grants: seq<Grant>, heard: set<string>)

  datatype Action =
    | Call(task: nat, op: Op)
    | Acquire(task: nat)
    | Proceed(task: nat, now: int, ok: bool, size: nat, reply: Reply)
    | Cancel(task: nat, inFlight: bool)
    | Land(inode: nat, ok: bool)
    | Writeback
    | PowerLoss(junk: map<nat, bytes>)

  function Finish(s: System, task: nat): System {
    s.(tasks := s.tasks - {task}, lock := None)
  }

  function Enter(s: System, task: nat, p: Phase): System {
    s.(tasks := s.tasks[task := p])
  }

  /** The lock holder has just read the file. */
  function AfterRead(fmt: Format, s: System, task: nat, op: Op): System {
    var r := ReadRaw(fmt, s.disk);
    if op.Push? then
      if Auth in s.disk.live then Enter(s, task, Persisting(op.access, op.refresh, op.expiresAt, Pushed))
      else if op.userId.GetOr("") == "" then Finish(s, task)
      else
        var r := Record("", op.access, op.refresh, op.userId.value, op.expiresAt);
        Enter(s, task, Writing(Version(r, Pushed), ToCreate, 0))
    else if r.None? || !Readable(r.value) then Finish(s, task)
    else if (op.Get? || op.Tick?) && !TokenExpired(r.value.expiresAt, s.clock) then Finish(s, task)
    else Enter(s, task, Granting(op, r.value.refreshToken, s.clock, |s.versions|))
  }

  /** A reply that is not taken for a failed refresh. */
  predicate Accepted(reply: Reply, now: int) {
    reply.Tokens? && reply.access != "" && ExpiresAtFrom(now, reply.expiresIn).Some?
  }

  /** What a reply leaves to be stored; an empty refresh token keeps the one that was sent. */
  function Received(token: string, basis: nat, reply: Reply, now: int): Phase
    requires Accepted(reply, now)
  {
    Persisting(reply.access, if reply.refresh == "" then token else reply.refresh,
               ExpiresAtFrom(now, reply.expiresIn).value, Rotated(token, reply.refresh, basis))
  }

  /** The next step of the lock holder; `ok` is the outcome of its system call, `reply` that of
      the token endpoint. */
  function Advance(fmt: Format, s: System, task: nat, ok: bool, size: nat, reply: Reply): System
    requires task in s.tasks && s.versions != []
  {
    match s.tasks[task]
    case Waiting(_) => s
    case Locked(op) =>
      if !ok then Finish(s, task) else AfterRead(fmt, s, task, op)
    case Granting(op, token, _, basis) =>
      Enter(s.(grants := s.grants + [Grant(token, s.clock)]), task, Awaiting(op, token, basis))
    case Awaiting(op, token, basis) =>
      if !Accepted(reply, s.clock) then Finish(s, task)
      else
        Enter(s.(heard := if reply.refresh == "" then s.heard else s.heard + {reply.refresh}), task,
              Received(token, basis, reply, s.clock))
    case Persisting(access, refresh, expiresAt, origin) =>
      var r := ReadRaw(fmt, s.disk);
      if !ok || r.None? then Finish(s, task)
      else
        var updated := r.value.(accessToken := access, refreshToken := refresh, expiresAt := expiresAt);
        Enter(s, task, Writing(Version(updated, origin), ToCreate, 0))
    case Writing(v, w, place) =>
      var (disk, next) := WriteStep(fmt, s.disk, v.record, w, ok, size);
      var t := s.(disk := disk);
      var renamed := if next.Renamed? && w.Filled? then t.(versions := t.versions + [v]) else t;
      if next.Written? then
        Finish(renamed.(durableAt := |renamed.versions| - 1, acked := |renamed.versions| - 1), task)
      else if next.WriteFailed? then Finish(renamed, task)
      else Enter(renamed, task, Writing(v, next, if next.Renamed? then |s.versions| else place))
  }

  /** What `update_credentials` refuses before it reaches the store. */
  predicate Admissible(op: Op) {
    op.Push? ==> op.access != "" && op.refresh != "" && op.expiresAt != 0
  }

  /** The clock never runs backwards. */
  function Later(s: System, now: int): int {
    if now > s.clock then now else s.clock
  }

  function Step(fmt: Format, s: System, a: Action): System
    requires s.versions != []
  {
    match a
    case Call(task, op) =>
      if task in s.tasks || !Admissible(op) then s
      else Enter(s.(heard := if op.Push? then s.heard + {op.refresh} else s.heard), task, Waiting(op))
    case Acquire(task) =>
      if s.lock.None? && task in s.tasks && s.tasks[task].Waiting? then
        Enter(s.(lock := Some(task)), task, Locked(s.tasks[task].op))
      else s
    case Proceed(task, now, ok, size, reply) =>
      if s.lock == Some(task) && task in s.tasks then
        Advance(fmt, s.(clock := Later(s, now)), task, ok, size, reply)
      else s
    case Cancel(task, inFlight) =>
      // a dropped future releases the mutex; its temp file may stay behind, and so may a system
      // call in flight, of which only a rename can touch the file later
      var t := s.(tasks := s.tasks - {task}, lock := if s.lock == Some(task) then None else s.lock);
      var renaming := s.lock == Some(task) && task in s.tasks && s.tasks[task].Writing? && s.tasks[task].write.Filled?;
      if inFlight && renaming then
        t.(orphans := s.orphans[s.tasks[task].write.inode := s.tasks[task].version])
      else t
    case Land(inode, ok) =>
      if inode !in s.orphans then s
      else if !ok then s.(orphans := s.orphans - {inode})
      else
        s.(disk := Rename(s.disk, inode),
           orphans := s.orphans - {inode},
           versions := s.versions + [s.orphans[inode]])
    case Writeback =>
      s.(disk := SyncDirectory(s.disk), durableAt := |s.versions| - 1)
    case PowerLoss(junk) =>
      s.(disk := AuthFile.Crash(s.disk, junk), lock := None, tasks := map[], orphans := map[],
         versions := if s.durableAt < |s.versions| then s.versions[..s.durableAt + 1] else s.versions)
  }

  // ---- the invariant --------------------------------------------------------------------

  /** What never changes about the record: its id token and account, and that it has a refresh
      token if it had one at the start. */
  datatype Identity = Identity(idToken: string, accountId: string, hasRefresh: bool)

  predicate Usable(r: Record, who: Identity) {
    && Readable(r) && r.idToken == who.idToken && r.accountId == who.accountId
    && (who.hasRefresh ==> r.refreshToken != "")
  }

  /** A rotation stores the token it received, or the one it sent if that was empty; a push brings
      a token of its own. */
  predicate Consistent(v: Version) {
    && !v.origin.Initial?
    && (v.origin.Pushed? ==> v.record.refreshToken != "")
    && (v.origin.Rotated? ==>
          v.record.refreshToken == (if v.origin.reply == "" then v.origin.granted else v.origin.reply))
  }

  /** A rotation was granted on the token of the version that its basis says. */
  ghost predicate Based(versions: seq<Version>, origin: Origin) {
    origin.Rotated? ==>
      0 < origin.basis <= |versions| && origin.granted == versions[origin.basis - 1].record.refreshToken
  }

  ghost predicate PhaseOk(fmt: Format, s: System, p: Phase, who: Identity) {
    match p
    case Waiting(op) => Admissible(op)
    case Locked(op) => Admissible(op)
    case Granting(op, token, at, basis) =>
      && (who.hasRefresh ==> token != "") && !op.Push?
      && 0 < basis <= |s.versions| && token == s.versions[basis - 1].record.refreshToken && at <= s.clock
      && (op.Get? || op.Tick? ==> TokenExpired(s.versions[basis - 1].record.expiresAt, at))
    case Awaiting(_, token, basis) =>
      && (who.hasRefresh ==> token != "")
      && 0 < basis <= |s.versions| && token == s.versions[basis - 1].record.refreshToken
    case Persisting(access, refresh, _, origin) =>
      && access != "" && (who.hasRefresh ==> refresh != "")
      && Consistent(Version(Record("", access, refresh, "", 0), origin)) && Based(s.versions, origin)
    case Writing(v, w, place) =>
      && !w.WriteFailed? && !w.Written?
      && Usable(v.record, who) && Consistent(v) && Based(s.versions, v.origin)
      && (w.Renamed? ==> place < |s.versions| && s.versions[place] == v)
      && WriteOk(fmt, s.disk, v.record, w)
      && (w.Filling? || w.Filled? ==> w.inode !in s.orphans)
  }

  /** The file, its history and the renames still in flight all hold complete records. */
  ghost predicate FileOk(fmt: Format, s: System, who: Identity) {
    && s.acked <= s.durableAt < |s.versions|
    && DiskHolds(fmt, s.disk, Last(s.versions).record, s.versions[s.durableAt].record)
    && (forall i :: 0 <= i < |s.versions| ==> Usable(s.versions[i].record, who))
    && (forall i :: i in s.orphans ==>
          && Holds(fmt, s.disk, i, s.orphans[i].record) && Usable(s.orphans[i].record, who)
          && Consistent(s.orphans[i]) && Based(s.versions, s.orphans[i].origin))
  }

  /** Only the lock holder is past waiting. */
  ghost predicate TasksOk(fmt: Format, s: System, who: Identity) {
    && (s.lock.Some? ==> s.lock.value in s.tasks && !s.tasks[s.lock.value].Waiting?)
    && (forall t :: t in s.tasks ==>
          && (!s.tasks[t].Waiting? ==> s.lock == Some(t))
          && PhaseOk(fmt, s, s.tasks[t], who))
  }

  ghost predicate Inv(fmt: Format, s: System, who: Identity) {
    FileOk(fmt, s, who) && TasksOk(fmt, s, who)
  }

  /** The other tasks wait, so it is enough to look at the lock holder. */
  lemma HolderStep(fmt: Format, s: System, t: System, task: nat, who: Identity)
    requires Inv(fmt, s, who) && s.lock == Some(task) && FileOk(fmt, t, who)
    requires t.tasks.Keys <= s.tasks.Keys && forall k :: k in t.tasks && k != task ==> t.tasks[k] == s.tasks[k]
    requires if t.lock.None? then task !in t.tasks
             else t.lock == s.lock && task in t.tasks && !t.tasks[task].Waiting? && PhaseOk(fmt, t, t.tasks[task], who)
    ensures Inv(fmt, t, who)
  {
    hide FileOk, WriteOk;
  }

  lemma FinishKeepsInv(fmt: Format, s: System, task: nat, who: Identity)
    requires Inv(fmt, s, who) && s.lock == Some(task)
    ensures Inv(fmt, Finish(s, task), who)
  {
    SameFile(fmt, s, Finish(s, task), who);
    hide FileOk, PhaseOk;
    HolderStep(fmt, s, Finish(s, task), task, who);
  }

  lemma EnterKeepsInv(fmt: Format, s: System, task: nat, p: Phase, who: Identity)
    requires Inv(fmt, s, who) && s.lock == Some(task) && !p.Waiting? && PhaseOk(fmt, s, p, who)
    ensures Inv(fmt, Enter(s, task, p), who)
  {
    SameFile(fmt, s, Enter(s, task, p), who);
    hide FileOk, WriteOk;
    HolderStep(fmt, s, Enter(s, task, p), task, who);
  }

  lemma SameFile(fmt: Format, s: System, t: System, who: Identity)
    requires FileOk(fmt, s, who)
    requires t.disk == s.disk && t.orphans == s.orphans && t.versions == s.versions
    requires t.durableAt == s.durableAt && t.acked == s.acked
    ensures FileOk(fmt, t, who)
  {
  }

  lemma AfterReadKeepsInv(fmt: Format, s: System, task: nat, op: Op, who: Identity)
    requires RoundTrips(fmt) && Inv(fmt, s, who)
    requires s.lock == Some(task) && task in s.tasks && s.tasks[task] == Locked(op)
    ensures Inv(fmt, AfterRead(fmt, s, task, op), who)
  {
    CurrentIsRead(fmt, s, who);
    FinishKeepsInv(fmt, s, task, who);
    hide ReadRaw, Readable, TokenExpired, FileOk, TasksOk, RoundTrips;
    var token := Last(s.versions).record.refreshToken;
    if op.Push? {
      EnterKeepsInv(fmt, s, task, Persisting(op.access, op.refresh, op.expiresAt, Pushed), who);
    } else {
      if !(op.Get? || op.Tick?) || TokenExpired(Last(s.versions).record.expiresAt, s.clock) {
        EnterKeepsInv(fmt, s, task, Granting(op, token, s.clock, |s.versions|), who);
      }
    }
  }

  /** What the lock holder reads is the latest version. */
  lemma CurrentIsRead(fmt: Format, s: System, who: Identity)
    requires RoundTrips(fmt) && FileOk(fmt, s, who)
    ensures ReadRaw(fmt, s.disk) == Some(Last(s.versions).record) && Usable(Last(s.versions).record, who)
    ensures Readable(Last(s.versions).record) && Auth in s.disk.live
  {
  }

  /** One system call of the writer: what becomes of the disk, the history and the writer. */
  lemma WritingAdvance(fmt: Format, s: System, task: nat, ok: bool, size: nat, reply: Reply)
    requires s.versions != [] && s.lock == Some(task) && task in s.tasks && s.tasks[task].Writing?
    requires !s.tasks[task].write.WriteFailed? && !s.tasks[task].write.Written?
    ensures var v, w := s.tasks[task].version, s.tasks[task].write;
            var (disk, next) := WriteStep(fmt, s.disk, v.record, w, ok, size);
            var t := Advance(fmt, s, task, ok, size, reply);
            && t.disk == disk && t.orphans == s.orphans
            && t.versions == (if next.Renamed? then s.versions + [v] else s.versions)
            && t.durableAt == (if next.Written? then |s.versions| - 1 else s.durableAt)
            && t.acked == (if next.Written? then |s.versions| - 1 else s.acked)
            && (if next.Written? || next.WriteFailed? then t.lock.None? && t.tasks == s.tasks - {task}
                else
                  var place := if next.Renamed? then |s.versions| else s.tasks[task].place;
                  t.lock == s.lock && t.tasks == s.tasks[task := Writing(v, next, place)])
            && (next.Renamed? ==> w.Filled?) && (next.Written? ==> w.Renamed?)
            && (w.Renamed? || w.Filled? ==> next.Renamed? || next.Written? || next.WriteFailed?)
            && (next.Filling? || next.Filled? ==>
                  if w.ToCreate? then next.inode == s.disk.next else (w.Filling? && next.inode == w.inode))
  {
    WriteStepShape(fmt, s.disk, s.tasks[task].version.record, s.tasks[task].write, ok, size);
    hide WriteStep;
  }

  lemma WriteKeepsFile(fmt: Format, s: System, task: nat, ok: bool, size: nat, reply: Reply, who: Identity)
    requires Inv(fmt, s, who)
    requires s.lock == Some(task) && task in s.tasks && s.tasks[task].Writing?
    ensures var t := Advance(fmt, s, task, ok, size, reply);
            var v := s.tasks[task].version;
            var next := WriteStep(fmt, s.disk, v.record, s.tasks[task].write, ok, size).1;
            && FileOk(fmt, t, who) && WriteOk(fmt, t.disk, v.record, next)
            && ((next.Filling? || next.Filled?) ==> next.inode !in t.orphans)
  {
    hide WriteStep, DiskHolds, WriteOk, Holds, Usable, Consistent, Advance;
    var v, w := s.tasks[task].version, s.tasks[task].write;
    assert PhaseOk(fmt, s, s.tasks[task], who);
    hide TasksOk;
    var t := Advance(fmt, s, task, ok, size, reply);
    WriteStepIsSafe(fmt, s.disk, v.record, w, ok, size, Last(s.versions).record, s.versions[s.durableAt].record);
    WritingAdvance(fmt, s, task, ok, size, reply);
    InodesAreBelow(fmt, s, who);
    forall i | i in s.orphans
      ensures Holds(fmt, t.disk, i, s.orphans[i].record)
    {
      WriteStepKeepsOthers(fmt, s.disk, v.record, w, ok, size, i, s.orphans[i].record);
    }
    Snoc(s.versions, v);
  }

  lemma InodesAreBelow(fmt: Format, s: System, who: Identity)
    requires FileOk(fmt, s, who)
    ensures forall i :: i in s.orphans ==> i < s.disk.next
  {
    hide Usable, Consistent;
  }

  lemma WriteStepShape(fmt: Format, d: Disk, r: Record, w: Write, ok: bool, size: nat)
    requires !w.WriteFailed? && !w.Written?
    ensures var v := WriteStep(fmt, d, r, w, ok, size).1;
            && (v.Renamed? ==> w.Filled?)
            && (v.Written? ==> w.Renamed?)
            && (w.Filled? ==> v.Renamed? || v.WriteFailed?)
            && (w.Renamed? ==> v.Written? || v.WriteFailed?)
            && (v.Filling? || v.Filled? ==>
                  if w.ToCreate? then v.inode == d.next else (w.Filling? && v.inode == w.inode))
  {
  }

  lemma WritingKeepsInv(fmt: Format, s: System, task: nat, ok: bool, size: nat, reply: Reply, who: Identity)
    requires Inv(fmt, s, who)
    requires s.lock == Some(task) && task in s.tasks && s.tasks[task].Writing?
    ensures Inv(fmt, Advance(fmt, s, task, ok, size, reply), who)
  {
    HolderIsOk(fmt, s, task, who);
    assert PhaseOk(fmt, s, s.tasks[task], who);
    hide WriteStep, FileOk, WriteOk, Usable, Consistent, Advance, TasksOk;
    WritingAdvance(fmt, s, task, ok, size, reply);
    WriteKeepsFile(fmt, s, task, ok, size, reply, who);
    HolderStep(fmt, s, Advance(fmt, s, task, ok, size, reply), task, who);
  }

  /** What the reply and the second read leave to be written. */
  lemma PersistingIsOk(fmt: Format, s: System, p: Phase, reply: Reply, who: Identity)
    requires Inv(fmt, s, who) && p.Awaiting? && PhaseOk(fmt, s, p, who) && Accepted(reply, s.clock)
    ensures PhaseOk(fmt, s, Received(p.token, p.basis, reply, s.clock), who)
  {
  }

  lemma WritingIsOk(fmt: Format, s: System, p: Phase, who: Identity)
    requires Inv(fmt, s, who) && p.Persisting? && PhaseOk(fmt, s, p, who)
    ensures var r := Last(s.versions).record;
            var updated := r.(accessToken := p.access, refreshToken := p.refresh, expiresAt := p.expiresAt);
            PhaseOk(fmt, s, Writing(Version(updated, p.origin), ToCreate, 0), who)
  {
    assert Usable(Last(s.versions).record, who);
    hide DiskHolds;
  }

  lemma AdvanceKeepsInv(fmt: Format, s: System, task: nat, ok: bool, size: nat, reply: Reply, who: Identity)
    requires RoundTrips(fmt) && Inv(fmt, s, who)
    requires s.lock == Some(task) && task in s.tasks && !s.tasks[task].Waiting?
    ensures Inv(fmt, Advance(fmt, s, task, ok, size, reply), who)
  {
    HolderIsOk(fmt, s, task, who);
    CurrentIsRead(fmt, s, who);
    hide FileOk, TasksOk, ReadRaw, RoundTrips;
    FinishKeepsInv(fmt, s, task, who);
    match s.tasks[task]
    case Locked(op) => AfterReadKeepsInv(fmt, s, task, op, who);
    case Granting(op, token, _, basis) =>
      var u := s.(grants := s.grants + [Grant(token, s.clock)]);
      HistoryKeepsInv(fmt, s, u, who);
      EnterKeepsInv(fmt, u, task, Awaiting(op, token, basis), who);
    case Awaiting(_, token, basis) =>
      if Accepted(reply, s.clock) {
        var u := s.(heard := if reply.refresh == "" then s.heard else s.heard + {reply.refresh});
        HistoryKeepsInv(fmt, s, u, who);
        HolderIsOk(fmt, u, task, who);
        PersistingIsOk(fmt, u, s.tasks[task], reply, who);
        EnterKeepsInv(fmt, u, task, Received(token, basis, reply, s.clock), who);
      }
    case Persisting(access, refresh, expiresAt, origin) =>
      WritingIsOk(fmt, s, s.tasks[task], who);
      var r := Last(s.versions).record.(accessToken := access, refreshToken := refresh, expiresAt := expiresAt);
      EnterKeepsInv(fmt, s, task, Writing(Version(r, origin), ToCreate, 0), who);
    case Writing(_, _, _) => WritingKeepsInv(fmt, s, task, ok, size, reply, who);
  }

  lemma HolderIsOk(fmt: Format, s: System, task: nat, who: Identity)
    requires Inv(fmt, s, who) && task in s.tasks
    ensures s.versions != [] && FileOk(fmt, s, who) && PhaseOk(fmt, s, s.tasks[task], who)
  {
  }

  lemma HistoryKeepsInv(fmt: Format, s: System, u: System, who: Identity)
    requires Inv(fmt, s, who) && u == s.(grants := u.grants, heard := u.heard)
    ensures Inv(fmt, u, who)
  {
    hide DiskHolds, Usable, WriteOk, Consistent, Holds;
  }

  /** A rename that lands after its call was dropped leaves a complete record too. */
  lemma LandKeepsInv(fmt: Format, s: System, inode: nat, ok: bool, who: Identity)
    requires Inv(fmt, s, who)
    ensures Inv(fmt, Step(fmt, s, Land(inode, ok)), who)
  {
    hide Usable, Consistent;
    if inode in s.orphans {
      var t := Step(fmt, s, Land(inode, ok));
      if ok {
        Snoc(s.versions, s.orphans[inode]);
        var now, after := Last(s.versions).record, s.versions[s.durableAt].record;
        RenameIsSafe(fmt, s.disk, inode, s.orphans[inode].record, now, after);
      }
      forall k | k in t.tasks
        ensures PhaseOk(fmt, t, t.tasks[k], who)
      {
        assert PhaseOk(fmt, s, s.tasks[k], who);
      }
      hide DiskHolds, Holds, WriteOk;
      assert FileOk(fmt, t, who);
    }
  }

  lemma RenameIsSafe(fmt: Format, d: Disk, inode: nat, r: Record, now: Record, after: Record)
    requires DiskHolds(fmt, d, now, after) && Holds(fmt, d, inode, r)
    ensures DiskHolds(fmt, Rename(d, inode), r, after)
  {
  }

  lemma CancelKeepsInv(fmt: Format, s: System, task: nat, inFlight: bool, who: Identity)
    requires Inv(fmt, s, who)
    ensures Inv(fmt, Step(fmt, s, Cancel(task, inFlight)), who)
  {
    hide DiskHolds, Usable, Consistent;
    if s.lock == Some(task) {
      assert PhaseOk(fmt, s, s.tasks[task], who);
    }
  }

  lemma StepKeepsInv(fmt: Format, s: System, a: Action, who: Identity)
    requires RoundTrips(fmt) && Inv(fmt, s, who)
    ensures Inv(fmt, Step(fmt, s, a), who)
  {
    hide DiskHolds, Usable, Advance, WriteOk, Consistent, Holds;
    match a
    case Call(_, _) =>
    case Acquire(_) =>
    case Proceed(task, now, ok, size, reply) =>
      if s.lock == Some(task) && task in s.tasks {
        AdvanceKeepsInv(fmt, s.(clock := Later(s, now)), task, ok, size, reply, who);
      }
    case Cancel(task, inFlight) => CancelKeepsInv(fmt, s, task, inFlight, who);
    case Land(inode, ok) => LandKeepsInv(fmt, s, inode, ok, who);
    case Writeback => WritebackKeepsInv(fmt, s, who);
    case PowerLoss(junk) =>
      CrashLeavesDurableRecord(fmt, s.disk, junk, Last(s.versions).record, s.versions[s.durableAt].record);
  }

  lemma WritebackKeepsInv(fmt: Format, s: System, who: Identity)
    requires Inv(fmt, s, who)
    ensures Inv(fmt, Step(fmt, s, Writeback), who)
  {
    hide Usable, Consistent;
    var t := Step(fmt, s, Writeback);
    WritebackIsSafe(fmt, s.disk, Last(s.versions).record, s.versions[s.durableAt].record);
    forall k | k in t.tasks
      ensures PhaseOk(fmt, t, t.tasks[k], who)
    {
      assert PhaseOk(fmt, s, s.tasks[k], who);
    }
  }

  lemma LaterKeepsInv(fmt: Format, s: System, clock: int, who: Identity)
    requires Inv(fmt, s, who) && s.clock <= clock
    ensures Inv(fmt, s.(clock := clock), who)
  {
    hide DiskHolds, Usable, WriteOk, Holds, TokenExpired, Consistent, Based;
  }

  // ---- every run ---------------------------------------------------------------------------

  ghost function Run(fmt: Format, s: System, actions: seq<Action>): (t: System)
    requires s.versions != []
    ensures t.versions != []
    decreases |actions|
  {
    if actions == [] then s
    else
      VersionsNonEmpty(fmt, s, actions[0]);
      Run(fmt, Step(fmt, s, actions[0]), actions[1..])
  }

  lemma VersionsNonEmpty(fmt: Format, s: System, a: Action)
    requires s.versions != []
    ensures Step(fmt, s, a).versions != []
  {
  }

  /** A fresh process on a disk whose credentials file is stored and readable. */
  ghost predicate Boot(fmt: Format, s: System, who: Identity) {
    && s.lock.None? && s.tasks == map[] && s.orphans == map[] && s.grants == []
    && |s.versions| == 1 && s.durableAt == 0 && s.acked == 0 && s.heard == {s.versions[0].record.refreshToken}
    && Usable(s.versions[0].record, who)
    && DiskHolds(fmt, s.disk, s.versions[0].record, s.versions[0].record)
  }

  lemma {:induction false} RunKeepsInv(fmt: Format, s: System, actions: seq<Action>, who: Identity)
    requires RoundTrips(fmt) && Inv(fmt, s, who)
    ensures Inv(fmt, Run(fmt, s, actions), who)
    decreases |actions|
  {
    if actions != [] {
      hide Step, Inv;
      InvMeansVersions(fmt, s, who);
      StepKeepsInv(fmt, s, actions[0], who);
      RunKeepsInv(fmt, Step(fmt, s, actions[0]), actions[1..], who);
    }
  }

  lemma BootHasInv(fmt: Format, s: System, who: Identity)
    requires Boot(fmt, s, who)
    ensures Inv(fmt, s, who)
  {
  }

  lemma InvMeansVersions(fmt: Format, s: System, who: Identity)
    requires Inv(fmt, s, who)
    ensures s.versions != [] && FileOk(fmt, s, who)
  {
  }

  /** Always readable: after any interleaving of requests, ticks, forced refreshes, admin pushes,
      cancellations at any point and crashes, the file reads back as a readable record with the id
      token and account it started with, and so it would after one more crash. */
  lemma AlwaysReadable(fmt: Format, s: System, actions: seq<Action>, who: Identity, junk: map<nat, bytes>)
    requires RoundTrips(fmt) && Boot(fmt, s, who)
    ensures var t := Run(fmt, s, actions);
            && ReadRaw(fmt, t.disk).Some? && Usable(ReadRaw(fmt, t.disk).value, who)
            && ReadRaw(fmt, AuthFile.Crash(t.disk, junk)).Some?
            && Usable(ReadRaw(fmt, AuthFile.Crash(t.disk, junk)).value, who)
  {
    hide Run, Usable, DiskHolds, AuthFile.Crash;
    BootHasInv(fmt, s, who);
    RunKeepsInv(fmt, s, actions, who);
    var t := Run(fmt, s, actions);
    CrashLeavesDurableRecord(fmt, t.disk, junk, Last(t.versions).record, t.versions[t.durableAt].record);
  }

  /** From a file with a refresh token, no interleaving and no crash ever leaves one without. */
  lemma RefreshTokenIsNeverLost(fmt: Format, s: System, actions: seq<Action>, who: Identity, junk: map<nat, bytes>)
    requires RoundTrips(fmt) && Boot(fmt, s, who) && s.versions[0].record.refreshToken != ""
    ensures var t := Run(fmt, s, actions);
            && ReadRaw(fmt, t.disk).Some? && ReadRaw(fmt, t.disk).value.refreshToken != ""
            && ReadRaw(fmt, AuthFile.Crash(t.disk, junk)).Some?
            && ReadRaw(fmt, AuthFile.Crash(t.disk, junk)).value.refreshToken != ""
  {
    hide Run, DiskHolds, AuthFile.Crash, ReadRaw;
    AlwaysReadable(fmt, s, actions, who.(hasRefresh := true), junk);
  }

  /** Without a crash the history only grows. */
  lemma {:induction false} HistoryGrows(fmt: Format, s: System, actions: seq<Action>)
    requires s.versions != [] && s.acked <= s.durableAt < |s.versions|
    requires forall a :: a in actions ==> !a.PowerLoss?
    ensures var t := Run(fmt, s, actions);
            s.versions <= t.versions && s.durableAt <= t.durableAt < |t.versions| && s.acked <= t.acked <= t.durableAt
    decreases |actions|
  {
    if actions != [] {
      hide Step;
      StepGrows(fmt, s, actions[0]);
      HistoryGrows(fmt, Step(fmt, s, actions[0]), actions[1..]);
    }
  }

  lemma StepGrows(fmt: Format, s: System, a: Action)
    requires s.versions != [] && s.acked <= s.durableAt < |s.versions|
    ensures var t := Step(fmt, s, a);
            && t.versions != [] && s.durableAt <= t.durableAt < |t.versions| && s.acked <= t.acked <= t.durableAt
            && s.versions[..s.durableAt + 1] == t.versions[..s.durableAt + 1]
            && (!a.PowerLoss? ==> s.versions <= t.versions)
  {
    hide WriteStep, AfterRead, ReadRaw;
    if a.Proceed? && s.lock == Some(a.task) && a.task in s.tasks {
      var u := s.(clock := Later(s, a.now));
      if s.tasks[a.task].Locked? {
        AfterReadFrame(fmt, u, a.task, s.tasks[a.task].op);
      }
    }
  }

  lemma AfterReadFrame(fmt: Format, s: System, task: nat, op: Op)
    ensures var t := AfterRead(fmt, s, task, op);
            && t.versions == s.versions && t.durableAt == s.durableAt && t.acked == s.acked
            && t.grants == s.grants && t.clock == s.clock
  {
  }

  /** At every crash point of one replacement of a durably stored file, what is found afterwards
      is the complete old or the complete new record. */
  lemma CrashLeavesOldOrNew(fmt: Format, s: System, actions: seq<Action>, who: Identity, junk: map<nat, bytes>)
    requires RoundTrips(fmt) && Inv(fmt, s, who) && s.durableAt == |s.versions| - 1
    requires forall a :: a in actions ==> !a.PowerLoss?
    requires |Run(fmt, s, actions).versions| <= |s.versions| + 1
    ensures var t := Run(fmt, s, actions);
            ReadRaw(fmt, AuthFile.Crash(t.disk, junk)) in {Some(Last(s.versions).record), Some(Last(t.versions).record)}
  {
    hide Run, DiskHolds, AuthFile.Crash;
    HistoryGrows(fmt, s, actions);
    RunKeepsInv(fmt, s, actions, who);
    var t := Run(fmt, s, actions);
    CrashLeavesDurableRecord(fmt, t.disk, junk, Last(t.versions).record, t.versions[t.durableAt].record);
  }

  /** What was durable when a writer was told Ok stays in the history through every later run and
      crash, and a crash never finds anything before it. */
  lemma {:induction false} AcknowledgedIsDurable(fmt: Format, s: System, actions: seq<Action>)
    requires s.versions != [] && s.acked <= s.durableAt < |s.versions|
    ensures var t := Run(fmt, s, actions);
            && s.acked <= t.acked <= t.durableAt < |t.versions|
            && t.versions[..s.acked + 1] == s.versions[..s.acked + 1]
    decreases |actions|
  {
    if actions != [] {
      hide Step;
      var t := Step(fmt, s, actions[0]);
      StepGrows(fmt, s, actions[0]);
      assert t.versions[..s.acked + 1] == t.versions[..s.durableAt + 1][..s.acked + 1];
      AcknowledgedIsDurable(fmt, t, actions[1..]);
      var u := Run(fmt, s, actions);
      assert u.versions[..s.acked + 1] == u.versions[..t.acked + 1][..s.acked + 1];
      assert s.versions[..s.acked + 1] == s.versions[..s.durableAt + 1][..s.acked + 1];
    }
  }

  /** A replacement returns Ok only when its record is in the history and all of that is durable;
      the file then holds the record unless a rename of a cancelled task has landed since. */
  lemma OkMeansStored(fmt: Format, s: System, task: nat, size: nat, reply: Reply, who: Identity)
    requires RoundTrips(fmt) && Inv(fmt, s, who) && task in s.tasks
    requires s.tasks[task].Writing? && s.tasks[task].write.Renamed?
    ensures var (v, place), t := (s.tasks[task].version, s.tasks[task].place), Advance(fmt, s, task, true, size, reply);
            && place <= t.acked == t.durableAt == |t.versions| - 1 && t.versions[place] == v
            && (place == |t.versions| - 1 ==> ReadRaw(fmt, t.disk) == Some(v.record))
  {
    hide Usable, WriteOk, Consistent, Based;
    assert PhaseOk(fmt, s, s.tasks[task], who);
  }

  // ---- grants ------------------------------------------------------------------------------

  /** Every grant carries the refresh token that its task read under the mutex, never an empty one
      if the file had one at the start; a request or a tick sends one only when the token it read
      has entered the expiry buffer. */
  lemma GrantsUseTheStoredToken(fmt: Format, s: System, a: Action, who: Identity)
    requires Inv(fmt, s, who) && Step(fmt, s, a).grants != s.grants
    ensures var t := Step(fmt, s, a);
            && a.Proceed? && a.task in s.tasks && s.tasks[a.task].Granting?
            && var p := s.tasks[a.task];
            && 0 < p.basis <= |s.versions|
            && var read := s.versions[p.basis - 1].record;
            && t.grants == s.grants + [Grant(read.refreshToken, t.clock)]
            && (who.hasRefresh ==> read.refreshToken != "")
            && (p.op.Get? || p.op.Tick? ==> TokenExpired(read.expiresAt, t.clock))
  {
    hide WriteStep, AfterRead, FileOk, WriteOk;
    if a.Proceed? && s.lock == Some(a.task) && a.task in s.tasks {
      HolderIsOk(fmt, s, a.task, who);
      if s.tasks[a.task].Locked? {
        AfterReadFrame(fmt, s.(clock := Later(s, a.now)), a.task, s.tasks[a.task].op);
      }
    }
  }

  // ---- a refresh that meets no failure ----------------------------------------------------------

  function Repeat(a: Action, n: nat): (r: seq<Action>)
    ensures |r| == n
  {
    if n == 0 then [] else [a] + Repeat(a, n - 1)
  }

  lemma RunRepeat(fmt: Format, s: System, a: Action, n: nat)
    requires s.versions != [] && n > 0
    ensures Step(fmt, s, a).versions != []
    ensures Run(fmt, s, Repeat(a, n)) == Run(fmt, Step(fmt, s, a), Repeat(a, n - 1))
  {
    VersionsNonEmpty(fmt, s, a);
    assert Repeat(a, n)[1..] == Repeat(a, n - 1);
  }

  /** Once a task has finished, proceeding with it does nothing. */
  lemma {:induction false} NothingLeft(fmt: Format, s: System, a: Action, n: nat)
    requires s.versions != [] && a.Proceed? && s.lock.None?
    ensures Run(fmt, s, Repeat(a, n)) == s
  {
    if n > 0 {
      RunRepeat(fmt, s, a, n);
      NothingLeft(fmt, s, a, n - 1);
    }
  }

  ghost predicate Stored(s: System, t: System, v: Version) {
    && t.versions == s.versions + [v] && t.acked == t.durableAt == |s.versions|
    && t.lock.None? && t.grants == s.grants && t.orphans == s.orphans
  }

  lemma FilledCompletes(fmt: Format, s: System, task: nat, a: Action, v: Version, n: nat)
    requires s.versions != [] && s.lock == Some(task) && task in s.tasks && n >= 2
    requires s.tasks[task].Writing? && s.tasks[task].version == v && s.tasks[task].write.Filled?
    requires a.Proceed? && a.task == task && a.ok && a.now <= s.clock
    ensures Stored(s, Run(fmt, s, Repeat(a, n)), v)
  {
    hide Run;
    var s1 := Step(fmt, s, a);
    RunRepeat(fmt, s, a, n);
    RunRepeat(fmt, s1, a, n - 1);
    NothingLeft(fmt, Step(fmt, s1, a), a, n - 2);
  }

  /** A replacement that meets no failure stores its record durably in at most five system calls. */
  lemma WriteCompletes(fmt: Format, s: System, task: nat, a: Action, v: Version)
    requires s.versions != [] && s.lock == Some(task) && task in s.tasks && s.tasks[task] == Writing(v, ToCreate, 0)
    requires a.Proceed? && a.task == task && a.ok && a.size == 0 && a.now <= s.clock
    ensures Stored(s, Run(fmt, s, Repeat(a, 5)), v)
  {
    hide Run;
    var s1 := Step(fmt, s, a);
    RunRepeat(fmt, s, a, 5);
    RunRepeat(fmt, s1, a, 4);
    var s2 := Step(fmt, s1, a);
    if fmt.encode(v.record) == [] {
      FilledCompletes(fmt, s2, task, a, v, 3);
    } else {
      RunRepeat(fmt, s2, a, 3);
      FilledCompletes(fmt, Step(fmt, s2, a), task, a, v, 2);
    }
  }

  /** What the file holds after a rotation of `r`, read as version number `basis`. */
  function RotatedVersion(r: Record, basis: nat, reply: Reply, now: int): Version
    requires reply.Tokens? && reply.expiresIn > 0
  {
    Version(r.(accessToken := reply.access,
               refreshToken := if reply.refresh == "" then r.refreshToken else reply.refresh,
               expiresAt := ExpiresAtFrom(now, reply.expiresIn).value),
            Rotated(r.refreshToken, reply.refresh, basis))
  }

  /** A lock holder that finds the token inside its buffer (or is forced), with a willing token
      endpoint and disk, sends one grant, stores the rotated record durably and releases the lock. */
  lemma RefreshCompletes(fmt: Format, s: System, task: nat, a: Action, who: Identity)
    requires RoundTrips(fmt) && Inv(fmt, s, who)
    requires s.lock == Some(task) && task in s.tasks && s.tasks[task].Locked? && !s.tasks[task].op.Push?
    requires a.Proceed? && a.task == task && a.ok && a.size == 0 && a.now <= s.clock
    requires a.reply.Tokens? && a.reply.access != "" && a.reply.expiresIn > 0
    requires s.tasks[task].op.Force? || TokenExpired(Last(s.versions).record.expiresAt, s.clock)
    ensures var current, t := Last(s.versions).record, Run(fmt, s, Repeat(a, 9));
            && t.grants == s.grants + [Grant(current.refreshToken, s.clock)]
            && t.versions == s.versions + [RotatedVersion(current, |s.versions|, a.reply, s.clock)]
            && t.acked == t.durableAt == |s.versions| && t.lock.None? && t.orphans == s.orphans
  {
    hide *;
    InvMeansVersions(fmt, s, who);
    CurrentIsRead(fmt, s, who);
    var s4 := GrantedAndAnswered(fmt, s, task, a, Last(s.versions).record);
    var v := RotatedVersion(Last(s.versions).record, |s.versions|, a.reply, s.clock);
    WriteCompletes(fmt, s4, task, a, v);
    StoredMeans(s4, Run(fmt, s4, Repeat(a, 5)), v);
    AtMeans(s, s4, task, Writing(v, ToCreate, 0), s.grants + [Grant(Last(s.versions).record.refreshToken, s.clock)]);
  }

  lemma StoredMeans(s: System, t: System, v: Version)
    requires Stored(s, t, v)
    ensures t.versions == s.versions + [v] && t.acked == t.durableAt == |s.versions|
    ensures t.lock.None? && t.grants == s.grants && t.orphans == s.orphans
  {
  }

  lemma AtMeans(s: System, t: System, task: nat, p: Phase, grants: seq<Grant>)
    requires At(s, t, task, p, grants)
    ensures t.versions == s.versions && t.grants == grants && t.clock == s.clock && t.orphans == s.orphans
    ensures t.lock == Some(task) && task in t.tasks && t.tasks[task] == p
  {
  }

  /** `t` is `s` except that the lock holder is in phase `p` and the grants are as given. */
  ghost predicate At(s: System, t: System, task: nat, p: Phase, grants: seq<Grant>) {
    && t.lock == Some(task) && task in t.tasks && t.tasks[task] == p && t.grants == grants
    && t.versions == s.versions && t.clock == s.clock && t.disk == s.disk && t.orphans == s.orphans
  }

  lemma ReadStep(fmt: Format, s: System, task: nat, a: Action, current: Record)
    requires s.versions != [] && s.lock == Some(task)
    requires task in s.tasks && s.tasks[task].Locked? && !s.tasks[task].op.Push?
    requires a.Proceed? && a.task == task && a.ok && a.now <= s.clock
    requires ReadRaw(fmt, s.disk) == Some(current) && Readable(current)
    requires s.tasks[task].op.Force? || TokenExpired(current.expiresAt, s.clock)
    ensures At(s, Step(fmt, s, a), task,
               Granting(s.tasks[task].op, current.refreshToken, s.clock, |s.versions|), s.grants)
  {
    hide ReadRaw;
  }

  lemma GrantStep(fmt: Format, s: System, task: nat, a: Action)
    requires s.versions != [] && s.lock == Some(task) && task in s.tasks && s.tasks[task].Granting?
    requires a.Proceed? && a.task == task && a.now <= s.clock
    ensures var p := s.tasks[task];
            At(s, Step(fmt, s, a), task, Awaiting(p.op, p.token, p.basis), s.grants + [Grant(p.token, s.clock)])
  {
  }

  lemma ReplyStep(fmt: Format, s: System, task: nat, a: Action)
    requires s.versions != [] && s.lock == Some(task) && task in s.tasks && s.tasks[task].Awaiting?
    requires a.Proceed? && a.task == task && a.now <= s.clock
    requires a.reply.Tokens? && a.reply.access != "" && a.reply.expiresIn > 0
    ensures var p := s.tasks[task];
            At(s, Step(fmt, s, a), task, Received(p.token, p.basis, a.reply, s.clock), s.grants)
  {
  }

  lemma PersistStep(fmt: Format, s: System, task: nat, a: Action, current: Record)
    requires s.versions != [] && s.lock == Some(task) && task in s.tasks && s.tasks[task].Persisting?
    requires a.Proceed? && a.task == task && a.ok && a.now <= s.clock
    requires ReadRaw(fmt, s.disk) == Some(current)
    ensures var p := s.tasks[task];
            var updated := current.(accessToken := p.access, refreshToken := p.refresh, expiresAt := p.expiresAt);
            At(s, Step(fmt, s, a), task, Writing(Version(updated, p.origin), ToCreate, 0), s.grants)
  {
    hide ReadRaw;
  }

  /** The first four steps: read, send the grant, take the reply, read again. */
  lemma GrantedAndAnswered(fmt: Format, s: System, task: nat, a: Action, current: Record) returns (t: System)
    requires s.versions != [] && s.lock == Some(task)
    requires task in s.tasks && s.tasks[task].Locked? && !s.tasks[task].op.Push?
    requires a.Proceed? && a.task == task && a.ok && a.size == 0 && a.now <= s.clock
    requires a.reply.Tokens? && a.reply.access != "" && a.reply.expiresIn > 0
    requires ReadRaw(fmt, s.disk) == Some(current) && Readable(current)
    requires s.tasks[task].op.Force? || TokenExpired(current.expiresAt, s.clock)
    ensures At(s, t, task, Writing(RotatedVersion(current, |s.versions|, a.reply, s.clock), ToCreate, 0),
               s.grants + [Grant(current.refreshToken, s.clock)])
    ensures t.versions != [] && t.lock == Some(task) && task in t.tasks && t.clock == s.clock
    ensures t.tasks[task] == Writing(RotatedVersion(current, |s.versions|, a.reply, s.clock), ToCreate, 0)
    ensures Run(fmt, s, Repeat(a, 9)) == Run(fmt, t, Repeat(a, 5))
  {
    hide Run, Step, ReadRaw, Repeat, TokenExpired;
    RunRepeat(fmt, s, a, 9);
    var s1 := Step(fmt, s, a);
    ReadStep(fmt, s, task, a, current);
    RunRepeat(fmt, s1, a, 8);
    var s2 := Step(fmt, s1, a);
    GrantStep(fmt, s1, task, a);
    RunRepeat(fmt, s2, a, 7);
    var s3 := Step(fmt, s2, a);
    ReplyStep(fmt, s2, task, a);
    RunRepeat(fmt, s3, a, 6);
    t := Step(fmt, s3, a);
    PersistStep(fmt, s3, task, a, current);
  }

  // ---- an admin push that meets no failure --------------------------------------------------

  /** A task that proceeds while everything succeeds. */
  predicate Willing(s: System, task: nat, a: Action) {
    && s.lock == Some(task) && task in s.tasks
    && a.Proceed? && a.task == task && a.ok && a.size == 0 && a.now <= s.clock
  }

  ghost predicate Sound(d: Disk) {
    forall i :: i in d.inodes ==> i < d.next
  }

  lemma FilledLands(fmt: Format, s: System, task: nat, a: Action, v: Version, n: nat)
    requires s.versions != [] && Willing(s, task, a) && n >= 2 && Sound(s.disk)
    requires s.tasks[task].Writing? && s.tasks[task].version == v && s.tasks[task].write.Filled?
    requires Holds(fmt, s.disk, s.tasks[task].write.inode, v.record)
    ensures DiskHolds(fmt, Run(fmt, s, Repeat(a, n)).disk, v.record, v.record)
  {
    hide Run;
    var s1 := Step(fmt, s, a);
    RunRepeat(fmt, s, a, n);
    RunRepeat(fmt, s1, a, n - 1);
    NothingLeft(fmt, Step(fmt, s1, a), a, n - 2);
  }

  /** A replacement that meets no failure leaves its record in the file, for good. */
  lemma WriteLands(fmt: Format, s: System, task: nat, a: Action, v: Version)
    requires s.versions != [] && Willing(s, task, a) && Sound(s.disk) && s.tasks[task] == Writing(v, ToCreate, 0)
    ensures DiskHolds(fmt, Run(fmt, s, Repeat(a, 5)).disk, v.record, v.record)
  {
    hide Run, DiskHolds;
    var data := fmt.encode(v.record);
    var s1 := Step(fmt, s, a);
    RunRepeat(fmt, s, a, 5);
    RunRepeat(fmt, s1, a, 4);
    var s2 := Step(fmt, s1, a);
    if data == [] {
      FilledLands(fmt, s2, task, a, v, 3);
    } else {
      RunRepeat(fmt, s2, a, 3);
      assert [] + data[..|data|] == data && data[|data|..] == [];
      FilledLands(fmt, Step(fmt, s2, a), task, a, v, 2);
    }
  }

  /** Whatever an admin pushes onto a stored file is what the file holds from then on, with the id
      token and account it had, and a crash changes nothing of it; no grant is sent. */
  lemma PushCompletes(fmt: Format, s: System, task: nat, a: Action, who: Identity, junk: map<nat, bytes>)
    requires RoundTrips(fmt) && Inv(fmt, s, who) && Willing(s, task, a)
    requires s.tasks[task].Locked? && s.tasks[task].op.Push?
    ensures var op, current, t := s.tasks[task].op, Last(s.versions).record, Run(fmt, s, Repeat(a, 7));
            var pushed := current.(accessToken := op.access, refreshToken := op.refresh, expiresAt := op.expiresAt);
            && t.versions == s.versions + [Version(pushed, Pushed)]
            && t.acked == t.durableAt == |s.versions| && t.lock.None? && t.orphans == s.orphans
            && t.grants == s.grants
            && ReadRaw(fmt, t.disk) == Some(pushed) && ReadRaw(fmt, AuthFile.Crash(t.disk, junk)) == Some(pushed)
  {
    hide Run, Step, Repeat, Inv, FileOk, ReadRaw, DiskHolds, RoundTrips, AuthFile.Crash, Stored, Usable;
    InvMeansVersions(fmt, s, who);
    CurrentIsRead(fmt, s, who);
    var op, current := s.tasks[task].op, Last(s.versions).record;
    var pushed := current.(accessToken := op.access, refreshToken := op.refresh, expiresAt := op.expiresAt);
    var s2 := PushRead(fmt, s, task, a, current);
    var v := Version(pushed, Pushed);
    var t := Run(fmt, s2, Repeat(a, 5));
    WriteCompletes(fmt, s2, task, a, v);
    StoredMeans(s2, t, v);
    FileIsSound(fmt, s, who);
    WriteLands(fmt, s2, task, a, v);
    CrashLeavesDurableRecord(fmt, t.disk, junk, pushed, pushed);
  }

  lemma FileIsSound(fmt: Format, s: System, who: Identity)
    requires FileOk(fmt, s, who)
    ensures Sound(s.disk)
  {
  }

  /** The first two steps of a push: find the file, and read it. */
  lemma PushRead(fmt: Format, s: System, task: nat, a: Action, current: Record) returns (t: System)
    requires s.versions != [] && Willing(s, task, a) && s.tasks[task].Locked? && s.tasks[task].op.Push?
    requires Auth in s.disk.live && ReadRaw(fmt, s.disk) == Some(current)
    ensures var op := s.tasks[task].op;
            var pushed := current.(accessToken := op.access, refreshToken := op.refresh, expiresAt := op.expiresAt);
            t == s.(tasks := s.tasks[task := Writing(Version(pushed, Pushed), ToCreate, 0)])
    ensures Run(fmt, s, Repeat(a, 7)) == Run(fmt, t, Repeat(a, 5)) && Willing(t, task, a)
  {
    hide Run, ReadRaw, Repeat;
    RunRepeat(fmt, s, a, 7);
    var s1 := Step(fmt, s, a);
    RunRepeat(fmt, s1, a, 6);
    t := Step(fmt, s1, a);
  }

  /** A push that finds no file creates it if it names an account, and the file is readable and
      survives a crash; without an account nothing is touched. */
  lemma BootstrapCompletes(fmt: Format, s: System, task: nat, a: Action, junk: map<nat, bytes>)
    requires RoundTrips(fmt) && s.versions != [] && Auth !in s.disk.live && Sound(s.disk)
    requires Willing(s, task, a) && s.tasks[task].Locked? && s.tasks[task].op.Push? && Admissible(s.tasks[task].op)
    ensures var op, t := s.tasks[task].op, Run(fmt, s, Repeat(a, 6));
            && t.lock.None? && t.grants == s.grants
            && if op.userId.GetOr("") == "" then t == Finish(s, task)
               else
                 var created := Record("", op.access, op.refresh, op.userId.value, op.expiresAt);
                 && DiskHolds(fmt, t.disk, created, created)
                 && Usable(created, Identity("", op.userId.value, true))
                 && ReadRaw(fmt, t.disk) == Some(created) && ReadRaw(fmt, AuthFile.Crash(t.disk, junk)) == Some(created)
  {
    hide Run, Repeat, DiskHolds, ReadRaw, RoundTrips;
    var op := s.tasks[task].op;
    RunRepeat(fmt, s, a, 6);
    var s1 := Step(fmt, s, a);
    if op.userId.GetOr("") == "" {
      NothingLeft(fmt, s1, a, 5);
    } else {
      var created := Record("", op.access, op.refresh, op.userId.value, op.expiresAt);
      var v := Version(created, Pushed);
      var t := Run(fmt, s1, Repeat(a, 5));
      WriteCompletes(fmt, s1, task, a, v);
      WriteLands(fmt, s1, task, a, v);
      CrashLeavesDurableRecord(fmt, t.disk, junk, created, created);
    }
  }

  // ---- from the call to the file ---------------------------------------------------------------

  /** A free mutex is taken by the first task that asks. */
  lemma CallTakesTheLock(fmt: Format, s: System, task: nat, op: Op, rest: seq<Action>, who: Identity)
    requires RoundTrips(fmt) && Inv(fmt, s, who) && s.lock.None? && task !in s.tasks && Admissible(op)
    ensures var heard := if op.Push? then s.heard + {op.refresh} else s.heard;
            var t := s.(tasks := s.tasks[task := Locked(op)], lock := Some(task), heard := heard);
            Inv(fmt, t, who) && Run(fmt, s, [Call(task, op), Acquire(task)] + rest) == Run(fmt, t, rest)
  {
    hide Advance, Inv;
    InvMeansVersions(fmt, s, who);
    var all := [Call(task, op), Acquire(task)] + rest;
    var s1 := Step(fmt, s, all[0]);
    StepKeepsInv(fmt, s, all[0], who);
    StepKeepsInv(fmt, s1, Acquire(task), who);
    assert all[1..] == [Acquire(task)] + rest && all[1..][1..] == rest;
    var t := Step(fmt, s1, Acquire(task));
    assert t.tasks == s.tasks[task := Locked(op)];
  }

  /** Proceeding at a later time is proceeding once the clock shows that time. */
  lemma {:induction false} TimePasses(fmt: Format, s: System, a: Action, n: nat)
    requires s.versions != [] && a.Proceed? && s.lock == Some(a.task) && a.task in s.tasks && n > 0
    ensures Run(fmt, s, Repeat(a, n)) == Run(fmt, s.(clock := Later(s, a.now)), Repeat(a, n))
  {
    hide Advance, Run;
    var u := s.(clock := Later(s, a.now));
    RunRepeat(fmt, s, a, n);
    RunRepeat(fmt, u, a, n);
    assert u.(clock := Later(u, a.now)) == u;
  }

  /** From a call of any task to the file: with a free mutex and a willing endpoint and disk, a refresh
      that is due at the time, or forced, sends one grant then and stores the rotated record durably. */
  lemma RefreshIsServed(fmt: Format, s: System, task: nat, op: Op, a: Action, who: Identity)
    requires RoundTrips(fmt) && Inv(fmt, s, who) && s.lock.None? && task !in s.tasks && !op.Push?
    requires a.Proceed? && a.task == task && a.ok && a.size == 0
    requires a.reply.Tokens? && a.reply.access != "" && a.reply.expiresIn > 0
    requires op.Force? || TokenExpired(Last(s.versions).record.expiresAt, if a.now > s.clock then a.now else s.clock)
    ensures var current, now := Last(s.versions).record, if a.now > s.clock then a.now else s.clock;
            var t := Run(fmt, s, [Call(task, op), Acquire(task)] + Repeat(a, 9));
            && t.grants == s.grants + [Grant(current.refreshToken, now)]
            && t.versions == s.versions + [RotatedVersion(current, |s.versions|, a.reply, now)]
            && t.acked == t.durableAt == |s.versions| && t.lock.None?
            && ReadRaw(fmt, t.disk) == Some(Last(t.versions).record)
  {
    hide Run, Step, Inv, ReadRaw, RoundTrips, TokenExpired, RotatedVersion;
    CallTakesTheLock(fmt, s, task, op, Repeat(a, 9), who);
    var u := s.(tasks := s.tasks[task := Locked(op)], lock := Some(task));
    InvMeansVersions(fmt, u, who);
    TimePasses(fmt, u, a, 9);
    LaterKeepsInv(fmt, u, Later(u, a.now), who);
    var v := u.(clock := Later(u, a.now));
    RefreshCompletes(fmt, v, task, a, who);
    RunKeepsInv(fmt, v, Repeat(a, 9), who);
    var t := Run(fmt, v, Repeat(a, 9));
    InvMeansVersions(fmt, t, who);
    CurrentIsRead(fmt, t, who);
  }

  /** The same for a push: what the admin sent is in the file, with one call. */
  lemma PushIsServed(fmt: Format, s: System, task: nat, op: Op, a: Action, who: Identity, junk: map<nat, bytes>)
    requires RoundTrips(fmt) && Inv(fmt, s, who) && s.lock.None? && task !in s.tasks && op.Push? && Admissible(op)
    requires a.Proceed? && a.task == task && a.ok && a.size == 0
    ensures var current, t := Last(s.versions).record, Run(fmt, s, [Call(task, op), Acquire(task)] + Repeat(a, 7));
            var pushed := current.(accessToken := op.access, refreshToken := op.refresh, expiresAt := op.expiresAt);
            && t.versions == s.versions + [Version(pushed, Pushed)]
            && t.acked == t.durableAt == |s.versions| && t.lock.None? && t.grants == s.grants
            && ReadRaw(fmt, t.disk) == Some(pushed) && ReadRaw(fmt, AuthFile.Crash(t.disk, junk)) == Some(pushed)
  {
    hide Run, Step, Inv, ReadRaw, RoundTrips, AuthFile.Crash;
    CallTakesTheLock(fmt, s, task, op, Repeat(a, 7), who);
    var u := s.(tasks := s.tasks[task := Locked(op)], lock := Some(task), heard := s.heard + {op.refresh});
    InvMeansVersions(fmt, u, who);
    TimePasses(fmt, u, a, 7);
    LaterKeepsInv(fmt, u, Later(u, a.now), who);
    PushCompletes(fmt, u.(clock := Later(u, a.now)), task, a, who, junk);
  }
}
