/** The filesystem the quarantine helper works on: values first, then the machine that
    executes system calls one at a time and may fail or stop at any of them. */
module Disk {

  /** Outcome of a helper routine: a value, or the end of the process with its report
      (`die`, `partial`, the success line) or because the machine stopped. */
  datatype State = QUARANTINED_EXACT | ORIGINAL_EXACT | ORIGINAL_EXACT_RECONCILED

  datatype Report =
    | Success(state: State, count: nat)
    | Partial(reason: string)   // PARTIAL_OR_DIVERGED, exit status 22
    | Refused(reason: string)   // message on stderr, exit status 20
    | Crashed                   // power loss: no report at all
    | Killed                    // the process ends without a report, the machine runs on
  {
    /** The helper did not end itself. */
    predicate Ended() { Crashed? || Killed? }
  }

  datatype Try<+T> = Value(value: T) | Stop(report: Report) {
    predicate IsFailure() { Stop? }
    function PropagateFailure<U>(): Try<U> requires Stop? { Stop(report) }
    function Extract(): T requires Value? { value }
  }

  datatype Option<+T> = None | Some(value: T)

  // ----- File system values -----

  /** Both trees are addressed by resolved location: directory components below the live
      root or below the quarantine "files" directory, and a final name. */
  datatype Side = LIVE | QUARANTINE
  datatype Slot = Slot(side: Side, dir: seq<string>, name: string)

  datatype FileId = FileId(dev: nat, ino: nat)
  datatype Kind = Regular | Directory | Special

  /** `sha` stands for the bytes: no modelled system call writes file data. */
  datatype Inode = Inode(kind: Kind, sha: string, size: nat, mode: nat, uid: nat, gid: nat, links: nat)

  datatype FS = FS(names: map<Slot, FileId>, inodes: map<FileId, Inode>)

  ghost function NamesOf(fs: FS, id: FileId): set<Slot> {
    set s | s in fs.names && fs.names[s] == id
  }

  /** Every name leads to an inode, and no inode has more names than its link count
      (links outside both trees may account for the difference). */
  ghost predicate WellLinked(fs: FS) {
    && (forall s | s in fs.names :: fs.names[s] in fs.inodes)
    && forall id | id in fs.inodes :: |NamesOf(fs, id)| <= fs.inodes[id].links
  }

  lemma SingleLink(fs: FS, s: Slot, s': Slot)
    requires WellLinked(fs)
    requires s in fs.names && s' in fs.names && fs.names[s] == fs.names[s']
    requires fs.inodes[fs.names[s]].links == 1
    ensures s == s'
  {
    var id := fs.names[s];
    if s != s' {
      assert {s, s'} <= NamesOf(fs, id);
      SubsetSize({s, s'}, NamesOf(fs, id));
    }
  }

  lemma {:induction false} SubsetSize<T>(a: set<T>, b: set<T>)
    requires a <= b
    ensures |a| <= |b|
  {
    assert b == a + (b - a);
  }

  // ----- What the system calls do to a file system value -----

  function Moved(fs: FS, from: Slot, to: Slot): FS
    requires from in fs.names
  {
    fs.(names := (fs.names - {from})[to := fs.names[from]])
  }

  /** The intermediate a torn rename can leave: both names, link count one higher. */
  function Linked(fs: FS, from: Slot, to: Slot): FS
    requires from in fs.names && fs.names[from] in fs.inodes
  {
    var id := fs.names[from];
    FS(fs.names[to := id], fs.inodes[id := fs.inodes[id].(links := fs.inodes[id].links + 1)])
  }

  function Chmodded(fs: FS, id: FileId, mode: nat): FS
    requires id in fs.inodes
  {
    fs.(inodes := fs.inodes[id := fs.inodes[id].(mode := mode)])
  }

  function Unlinked(fs: FS, s: Slot): FS
    requires s in fs.names && fs.names[s] in fs.inodes
  {
    var id := fs.names[s];
    var links := fs.inodes[id].links;
    FS(fs.names - {s}, fs.inodes[id := fs.inodes[id].(links := if links == 0 then 0 else links - 1)])
  }

  predicate CanMove(fs: FS, from: Slot, to: Slot) {
    from in fs.names && to !in fs.names && fs.names[from] in fs.inodes
  }

  predicate CanUnlink(fs: FS, s: Slot) {
    s in fs.names && fs.names[s] in fs.inodes
  }

  lemma MovedWellLinked(fs: FS, from: Slot, to: Slot)
    requires WellLinked(fs) && CanMove(fs, from, to)
    ensures WellLinked(Moved(fs, from, to))
  {
    var fs' := Moved(fs, from, to);
    forall id | id in fs'.inodes ensures |NamesOf(fs', id)| <= fs'.inodes[id].links {
      if id == fs.names[from] {
        assert NamesOf(fs', id) == NamesOf(fs, id) - {from} + {to};
      } else {
        assert NamesOf(fs', id) == NamesOf(fs, id);
      }
    }
  }

  lemma ChmoddedWellLinked(fs: FS, id: FileId, mode: nat)
    requires WellLinked(fs) && id in fs.inodes
    ensures WellLinked(Chmodded(fs, id, mode))
  {
    var fs' := Chmodded(fs, id, mode);
    forall i | i in fs'.inodes ensures |NamesOf(fs', i)| <= fs'.inodes[i].links {
      assert NamesOf(fs', i) == NamesOf(fs, i);
    }
  }

  lemma UnlinkedWellLinked(fs: FS, s: Slot)
    requires WellLinked(fs) && CanUnlink(fs, s)
    ensures WellLinked(Unlinked(fs, s))
  {
    var fs' := Unlinked(fs, s);
    forall i | i in fs'.inodes ensures |NamesOf(fs', i)| <= fs'.inodes[i].links {
      if i == fs.names[s] {
        assert NamesOf(fs', i) == NamesOf(fs, i) - {s};
        assert s in NamesOf(fs, i);
      } else {
        assert NamesOf(fs', i) == NamesOf(fs, i);
      }
    }
  }

  // ----- Images: the states a power loss may leave -----

  /** A rename not yet made durable persists as the old name only, the new name only, or both. */
  function AfterRename(images: set<FS>, from: Slot, to: Slot): set<FS> {
    images
    + (set im | im in images && CanMove(im, from, to) :: Moved(im, from, to))
    + (set im | im in images && CanMove(im, from, to) :: Linked(im, from, to))
  }

  function AfterChmod(images: set<FS>, id: FileId, mode: nat): set<FS> {
    images + (set im | im in images && id in im.inodes :: Chmodded(im, id, mode))
  }

  function AfterUnlink(images: set<FS>, s: Slot): set<FS> {
    images + (set im | im in images && CanUnlink(im, s) :: Unlinked(im, s))
  }

  predicate SameEntry(a: FS, b: FS, s: Slot) {
    (s in a.names <==> s in b.names) && (s in a.names && s in b.names ==> a.names[s] == b.names[s])
  }

  predicate AgreeInDirectory(a: FS, b: FS, side: Side, dir: seq<string>) {
    forall s | s in a.names.Keys + b.names.Keys :: s.side == side && s.dir == dir ==> SameEntry(a, b, s)
  }

  predicate AgreeInMode(a: FS, b: FS, id: FileId) {
    id in a.inodes && id in b.inodes && a.inodes[id].mode == b.inodes[id].mode
  }

  /** fsync of a directory: only images with the directory's current entries remain. */
  function AfterSyncDirectory(images: set<FS>, fs: FS, side: Side, dir: seq<string>): set<FS> {
    set im | im in images && AgreeInDirectory(im, fs, side, dir)
  }

  /** fsync of an open file: only images with its current mode remain. */
  function AfterSyncFile(images: set<FS>, fs: FS, id: FileId): set<FS> {
    set im | im in images && AgreeInMode(im, fs, id)
  }

  // ----- The machine -----

  /** What happens to one system call: it completes, it returns an error and changes nothing,
      the machine stops during it and comes back with one of the possible images, or the process is
      killed before or after it, which leaves pending what was pending. */
  datatype Event = Done | Fault | Crash(image: FS) | Kill(after: bool)

  /** What happens to each call, of which some first ones are known to complete. */
  datatype Script = Script(event: nat -> Event, sure: nat)

  type Oracle = o: Script | forall k | 0 <= k < o.sure :: o.event(k) == Done witness Script(_ => Done, 0)

  class Machine {
    const oracle: Oracle
    var clock: nat
    var fs: FS
    var images: set<FS>
    /** How many calls that only look have failed so far. */
    ghost var blind: nat

    constructor (oracle: Oracle, fs: FS)
      ensures this.oracle == oracle && this.fs == fs && images == {fs} && clock == 0
    {
      this.oracle := oracle;
      this.fs := fs;
      this.images := {fs};
      this.clock := 0;
      this.blind := 0;
    }

    /** Nothing is pending: a power loss now would leave exactly the current state. */
    ghost predicate Settled() reads this {
      images == {fs}
    }

    /** No system call from now on fails. */
    ghost predicate Calm() reads this {
      forall n: nat :: clock <= n ==> oracle.event(n) == Done
    }

    /** The next `n` system calls complete. */
    ghost predicate Sure(n: nat) reads this { clock + n <= oracle.sure }

    /** The next `n` system calls complete, and the one after them returns an error. */
    ghost predicate BlindIn(n: nat) reads this { clock + n == oracle.sure && oracle.event(oracle.sure) == Fault }

    /** One system call: `next` and `after` are the state and images if it completes, `torn`
        the images a power loss during the call may leave. */
    method Step(next: FS, after: set<FS>, torn: set<FS>) returns (r: Try<bool>)
      requires fs in torn
      modifies this
      ensures clock == old(clock) + 1 && blind == old(blind)
      ensures old(Calm()) ==> Calm() && r == Value(true)
      ensures r.Value? && r.value ==> fs == next && images == after
      ensures r.Value? && !r.value ==> fs == old(fs) && images == old(images)
      ensures old(Sure(1)) ==> r == Value(true)
      ensures old(BlindIn(0)) ==> r == Value(false)
      ensures r.Stop? ==> r.report.Ended() && (r.report.Crashed? ==> fs in torn && images == {fs})
      ensures r.Stop? && r.report.Killed? ==>
        (fs == next && images == after) || (fs == old(fs) && images == old(images))
    {
      var event := oracle.event(clock);
      clock := clock + 1;
      match event
      case Done =>
        fs, images := next, after;
        r := Value(true);
      case Fault =>
        r := Value(false);
      case Crash(image) =>
        fs := if image in torn then image else fs;
        images := {fs};
        r := Stop(Crashed);
      case Kill(completed) =>
        if completed { fs, images := next, after; }
        r := Stop(Killed);
    }

    /** A call that only looks: open, fstat, fstatat, read. */
    method Look() returns (r: Try<bool>)
      requires fs in images
      modifies this
      ensures clock == old(clock) + 1 && blind == old(blind) + (if r == Value(false) then 1 else 0)
      ensures old(Calm()) ==> Calm() && r == Value(true)
      ensures old(Sure(1)) ==> r == Value(true)
      ensures old(BlindIn(0)) ==> r == Value(false)
      ensures r.Value? || r.report.Killed? ==> fs == old(fs) && images == old(images)
      ensures r.Stop? ==> r.report.Ended() && (r.report.Crashed? ==> fs in old(images) && images == {fs})
    {
      r := Step(fs, images, images);
      if r == Value(false) { blind := blind + 1; }
    }

    /** renameat2 with RENAME_NOREPLACE. */
    method Rename(from: Slot, to: Slot) returns (r: Try<bool>)
      requires fs in images
      modifies this
      ensures clock == old(clock) + 1 && blind == old(blind)
      ensures old(Calm()) ==> Calm() && r.Value?
      ensures old(Calm()) && CanMove(old(fs), from, to) ==> r == Value(true)
      ensures r.Value? && r.value ==>
        && CanMove(old(fs), from, to)
        && fs == Moved(old(fs), from, to) && images == AfterRename(old(images), from, to)
      ensures r.Value? && !r.value ==> fs == old(fs) && images == old(images)
      ensures old(Sure(1) && CanMove(fs, from, to)) ==> r == Value(true)
      ensures r.Stop? ==>
        r.report.Ended() && (r.report.Crashed? ==> fs in AfterRename(old(images), from, to) && images == {fs})
      ensures r.Stop? && r.report.Killed? ==>
        || (CanMove(old(fs), from, to) && fs == Moved(old(fs), from, to)
          && images == AfterRename(old(images), from, to))
        || (fs == old(fs) && images == old(images))
    {
      if CanMove(fs, from, to) {
        var after := AfterRename(images, from, to);
        r := Step(Moved(fs, from, to), after, after);
      } else {
        var refused :- Step(fs, images, images);
        r := Value(false);
      }
    }

    method Chmod(id: FileId, mode: nat) returns (r: Try<bool>)
      requires fs in images && id in fs.inodes
      modifies this
      ensures clock == old(clock) + 1 && blind == old(blind)
      ensures old(Calm()) ==> Calm() && r == Value(true)
      ensures r.Value? && r.value ==>
        fs == Chmodded(old(fs), id, mode) && images == AfterChmod(old(images), id, mode)
      ensures r.Value? && !r.value ==> fs == old(fs) && images == old(images)
      ensures old(Sure(1)) ==> r == Value(true)
      ensures r.Stop? ==>
        r.report.Ended() && (r.report.Crashed? ==> fs in AfterChmod(old(images), id, mode) && images == {fs})
      ensures r.Stop? && r.report.Killed? ==>
        || (fs == Chmodded(old(fs), id, mode) && images == AfterChmod(old(images), id, mode))
        || (fs == old(fs) && images == old(images))
    {
      var after := AfterChmod(images, id, mode);
      r := Step(Chmodded(fs, id, mode), after, after);
    }

    method Unlink(s: Slot) returns (r: Try<bool>)
      requires fs in images && CanUnlink(fs, s)
      modifies this
      ensures clock == old(clock) + 1 && blind == old(blind)
      ensures old(Calm()) ==> Calm() && r == Value(true)
      ensures r.Value? && r.value ==>
        fs == Unlinked(old(fs), s) && images == AfterUnlink(old(images), s)
      ensures r.Value? && !r.value ==> fs == old(fs) && images == old(images)
      ensures r.Stop? ==>
        r.report.Ended() && (r.report.Crashed? ==> fs in AfterUnlink(old(images), s) && images == {fs})
      ensures r.Stop? && r.report.Killed? ==>
        || (fs == Unlinked(old(fs), s) && images == AfterUnlink(old(images), s))
        || (fs == old(fs) && images == old(images))
    {
      var after := AfterUnlink(images, s);
      r := Step(Unlinked(fs, s), after, after);
    }

    method SyncDirectory(side: Side, dir: seq<string>) returns (r: Try<bool>)
      requires fs in images
      modifies this
      ensures clock == old(clock) + 1 && blind == old(blind)
      ensures old(Calm()) ==> Calm() && r == Value(true)
      ensures r.Value? ==> fs == old(fs)
      ensures r.Value? && r.value ==> images == AfterSyncDirectory(old(images), fs, side, dir)
      ensures r.Value? && !r.value ==> images == old(images)
      ensures old(Sure(1)) ==> r == Value(true)
      ensures r.Stop? ==> r.report.Ended() && (r.report.Crashed? ==> fs in old(images) && images == {fs})
      ensures r.Stop? && r.report.Killed? ==>
        fs == old(fs) && (images == AfterSyncDirectory(old(images), fs, side, dir) || images == old(images))
    {
      r := Step(fs, AfterSyncDirectory(images, fs, side, dir), images);
    }

    method SyncFile(id: FileId) returns (r: Try<bool>)
      requires fs in images
      modifies this
      ensures clock == old(clock) + 1 && blind == old(blind)
      ensures old(Calm()) ==> Calm() && r == Value(true)
      ensures r.Value? ==> fs == old(fs)
      ensures r.Value? && r.value ==> images == AfterSyncFile(old(images), fs, id)
      ensures r.Value? && !r.value ==> images == old(images)
      ensures old(Sure(1)) ==> r == Value(true)
      ensures r.Stop? ==> r.report.Ended() && (r.report.Crashed? ==> fs in old(images) && images == {fs})
      ensures r.Stop? && r.report.Killed? ==>
        fs == old(fs) && (images == AfterSyncFile(old(images), fs, id) || images == old(images))
    {
      r := Step(fs, AfterSyncFile(images, fs, id), images);
    }
  }
}
