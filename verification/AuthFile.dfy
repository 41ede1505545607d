/** The credentials file on a disk that can lose power: file contents and directory entries are
    only durable once synced. */
module AuthFile {
  import opened Sequences

  datatype Record = Record(idToken: string, accessToken: string, refreshToken: string, accountId: string,
                           expiresAt: int)

  /** The JSON form of a record. */
  datatype Format = Format(encode: Record -> bytes, decode: bytes -> Option<Record>)

  ghost predicate RoundTrips(fmt: Format) {
    forall r: Record :: fmt.decode(fmt.encode(r)) == Some(r)
  }

  datatype Name = Auth | Temp(inode: nat)

  datatype Inode = Inode(data: bytes, synced: bool)

  /** `live` is the directory as programs see it, `durable` as it would be found after a crash. */
  datatype Disk = Disk(inodes: map<nat, Inode>, next: nat, live: map<Name, nat>, durable: map<Name, nat>)

  /** A new, empty temp file; its unique name is taken from its inode. */
  function CreateTemp(d: Disk): Disk {
    Disk(d.inodes[d.next := Inode([], false)], d.next + 1, d.live[Temp(d.next) := d.next], d.durable)
  }

  function Append(d: Disk, inode: nat, chunk: bytes): Disk
    requires inode in d.inodes
  {
    d.(inodes := d.inodes[inode := Inode(d.inodes[inode].data + chunk, false)])
  }

  function SyncFile(d: Disk, inode: nat): Disk
    requires inode in d.inodes
  {
    d.(inodes := d.inodes[inode := Inode(d.inodes[inode].data, true)])
  }

  /** Rename the temp file over the credentials file. */
  function Rename(d: Disk, inode: nat): Disk {
    d.(live := (d.live - {Temp(inode)})[Auth := inode])
  }

  function RemoveTemp(d: Disk, inode: nat): Disk {
    d.(live := d.live - {Temp(inode)})
  }

  function SyncDirectory(d: Disk): Disk {
    d.(durable := d.live)
  }

  /** Power loss: the directory falls back to its durable entries, and a file that was not
      synced holds anything at all. */
  function Crash(d: Disk, junk: map<nat, bytes>): Disk {
    d.(live := d.durable,
       inodes := map i | i in d.inodes ::
                   if d.inodes[i].synced then d.inodes[i]
                   else Inode(if i in junk then junk[i] else d.inodes[i].data, true))
  }

  /** `read_raw` on the live file. */
  function ReadRaw(fmt: Format, d: Disk): Option<Record> {
    if Auth in d.live && d.live[Auth] in d.inodes then fmt.decode(d.inodes[d.live[Auth]].data) else None
  }

  /** The bearer token: `access_token`, else `id_token`. */
  function Token(r: Record): string {
    if r.accessToken == "" then r.idToken else r.accessToken
  }

  predicate Readable(r: Record): (ok: bool)
    ensures ok <==> (r.accessToken != "" || r.idToken != "") && r.accountId != ""
  {
    Token(r) != "" && r.accountId != ""
  }

  // ---- replacing the file ------------------------------------------------------------

  /** How far a replacement of the file has got. */
  datatype Write = ToCreate | Filling(inode: nat, rest: bytes) | Filled(inode: nat) | Renamed | WriteFailed | Written

  /** The next system call of `write_raw`; `ok` tells whether it succeeds and `size` how much of
      the rest one write call takes. */
  function WriteStep(fmt: Format, d: Disk, r: Record, w: Write, ok: bool, size: nat): (Disk, Write) {
    match w
    case ToCreate =>
      if ok then (CreateTemp(d), Filling(d.next, fmt.encode(r))) else (d, WriteFailed)
    case Filling(inode, rest) =>
      if !ok || inode !in d.inodes then (RemoveTemp(d, inode), WriteFailed)
      else if rest == [] then (SyncFile(d, inode), Filled(inode))
      else
        var k := if 0 < size < |rest| then size else |rest|;
        (Append(d, inode, rest[..k]), Filling(inode, rest[k..]))
    case Filled(inode) =>
      if ok then (Rename(d, inode), Renamed) else (RemoveTemp(d, inode), WriteFailed)
    case Renamed =>
      // the rename is visible even when the directory sync fails
      if ok then (SyncDirectory(d), Written) else (d, WriteFailed)
    case WriteFailed => (d, w)
    case Written => (d, w)
  }

  // ---- what every step keeps -----------------------------------------------------------

  /** Inode `inode` durably holds exactly the record `r`. */
  ghost predicate Holds(fmt: Format, d: Disk, inode: nat, r: Record) {
    inode in d.inodes && d.inodes[inode] == Inode(fmt.encode(r), true)
  }

  /** The live file is `now`, a crash would leave `after`. */
  ghost predicate DiskHolds(fmt: Format, d: Disk, now: Record, after: Record) {
    && (forall i :: i in d.inodes ==> i < d.next)
    && Auth in d.live && Holds(fmt, d, d.live[Auth], now)
    && Auth in d.durable && Holds(fmt, d, d.durable[Auth], after)
  }

  /** A replacement in progress works on a file of its own. */
  ghost predicate WriteOk(fmt: Format, d: Disk, r: Record, w: Write) {
    && (w.Filling? || w.Filled? ==>
          && w.inode in d.inodes
          && Auth in d.live && Auth in d.durable
          && w.inode != d.live[Auth] && w.inode != d.durable[Auth])
    && (w.Filling? ==> d.inodes[w.inode].data + w.rest == fmt.encode(r))
    && (w.Filled? ==> d.inodes[w.inode] == Inode(fmt.encode(r), true))
  }

  /** Every system call of a replacement leaves the file holding a complete record: the old one up
      to the rename, the new one from then on; what a crash would leave changes only with the
      successful directory sync. */
  lemma WriteStepIsSafe(fmt: Format, d: Disk, r: Record, w: Write, ok: bool, size: nat, now: Record, after: Record)
    requires DiskHolds(fmt, d, now, after) && WriteOk(fmt, d, r, w)
    ensures var (e, v) := WriteStep(fmt, d, r, w, ok, size);
            && WriteOk(fmt, e, r, v)
            && DiskHolds(fmt, e, if w.Filled? && v.Renamed? then r else now,
                         if w.Renamed? && v.Written? then now else after)
  {
    if w.Filling? && ok && w.rest != [] {
      var k := if 0 < size < |w.rest| then size else |w.rest|;
      assert (d.inodes[w.inode].data + w.rest[..k]) + w.rest[k..] == d.inodes[w.inode].data + w.rest;
    }
    if w.Filling? && w.rest == [] {
      assert d.inodes[w.inode].data + [] == d.inodes[w.inode].data;
    }
  }

  /** No system call of a replacement touches another complete file. */
  lemma WriteStepKeepsOthers(fmt: Format, d: Disk, r: Record, w: Write, ok: bool, size: nat, inode: nat, other: Record)
    requires Holds(fmt, d, inode, other) && inode < d.next && (w.Filling? || w.Filled? ==> w.inode != inode)
    ensures Holds(fmt, WriteStep(fmt, d, r, w, ok, size).0, inode, other)
  {
  }

  /** After a crash the file reads back as the record last made durable. */
  lemma CrashLeavesDurableRecord(fmt: Format, d: Disk, junk: map<nat, bytes>, now: Record, after: Record)
    requires RoundTrips(fmt) && DiskHolds(fmt, d, now, after)
    ensures DiskHolds(fmt, Crash(d, junk), after, after)
    ensures ReadRaw(fmt, d) == Some(now) && ReadRaw(fmt, Crash(d, junk)) == Some(after)
  {
  }

  /** The kernel may write the directory back at any time. */
  lemma WritebackIsSafe(fmt: Format, d: Disk, now: Record, after: Record)
    requires DiskHolds(fmt, d, now, after)
    ensures DiskHolds(fmt, SyncDirectory(d), now, now)
  {
  }
}
