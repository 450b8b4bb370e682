/** The exact-file quarantine helper: apply, rollback, observation and crash reconciliation over
    one target list, one system call at a time. */
module Transaction {
  import opened Disk
  import opened Targets
  import opened Durability

  datatype Row = BEGIN(count: nat) | MOVED(index: nat) | COMMITTED(count: nat) | COMPENSATED(count: nat)

  /** A routine that only looked: unchanged, unless the machine stopped meanwhile. */
  ghost predicate Kept<T>(r: Try<T>, fs0: FS, images0: set<FS>, fs: FS, images: set<FS>) {
    if r.Stop? && r.report.Crashed? then fs in images0 && images == {fs}
    else fs == fs0 && images == images0
  }

  /** No object loses its last name, and no bytes, owner or size change. */
  ghost predicate Named(fs: FS, id: FileId) { exists s :: s in fs.names && fs.names[s] == id }

  ghost predicate Preserves(a: FS, b: FS) {
    && (forall id :: Named(a, id) ==> Named(b, id))
    && forall id | id in a.inodes ::
         id in b.inodes && b.inodes[id] == a.inodes[id].(mode := b.inodes[id].mode, links := b.inodes[id].links)
  }

  lemma PreservesTrans(a: FS, b: FS, c: FS)
    requires Preserves(a, b) && Preserves(b, c)
    ensures Preserves(a, c)
  {
  }

  lemma MovedPreserves(fs: FS, from: Slot, to: Slot)
    requires CanMove(fs, from, to)
    ensures Preserves(fs, Moved(fs, from, to))
  {
    var fs' := Moved(fs, from, to);
    forall id | Named(fs, id) ensures Named(fs', id) {
      var s :| s in fs.names && fs.names[s] == id;
      if s == from { assert fs'.names[to] == id; } else { assert fs'.names[s] == id; }
    }
  }

  lemma ChmoddedPreserves(fs: FS, id: FileId, mode: nat)
    requires id in fs.inodes
    ensures Preserves(fs, Chmodded(fs, id, mode))
  {
    forall i | Named(fs, i) ensures Named(Chmodded(fs, id, mode), i) {
      var s :| s in fs.names && fs.names[s] == i;
      assert Chmodded(fs, id, mode).names[s] == i;
    }
  }

  /** The only unlink removes one of two names of the same inode. */
  lemma UnlinkedPreserves(fs: FS, s: Slot, other: Slot)
    requires CanUnlink(fs, s) && other in fs.names && other != s && fs.names[other] == fs.names[s]
    ensures Preserves(fs, Unlinked(fs, s))
  {
    var fs' := Unlinked(fs, s);
    forall id | Named(fs, id) ensures Named(fs', id) {
      var n :| n in fs.names && fs.names[n] == id;
      if n == s { assert fs'.names[other] == id; } else { assert fs'.names[n] == id; }
    }
  }

  predicate LeadsToDirectory(fs: FS, s: Slot) {
    s in fs.names && fs.names[s] in fs.inodes && fs.inodes[fs.names[s]].kind == Directory
  }

  /** A name either does not lead to the bound object, or leads to it intact. */
  predicate IntactIfAt(fs: FS, s: Slot, t: Target, links: set<nat>) {
    At(fs, s, t) ==>
      && t.file in fs.inodes
      && fs.inodes[t.file].links in links
      && Intact(fs, t, fs.inodes[t.file].links)
  }

  predicate SettledFrom(fs0: FS, fs: FS, t: Target) {
    AtHome(fs0, t) && fs == Settle(fs0, t)
  }

  /** How far settling one target at its live name got. */
  predicate SettleStage(fs0: FS, fs: FS, t: Target) {
    || fs == fs0
    || (At(fs0, t.Live(), t) && t.file in fs0.inodes && fs == Chmodded(fs0, t.file, t.mode))
    || SettledFrom(fs0, fs, t)
  }

  lemma SettleStagePreserves(fs0: FS, fs: FS, t: Target)
    requires SettleStage(fs0, fs, t)
    ensures Preserves(fs0, fs)
  {
    if fs != fs0 {
      var fs1 := Chmodded(fs0, t.file, t.mode);
      ChmoddedPreserves(fs0, t.file, t.mode);
      if SettledFrom(fs0, fs, t) && OnBoth(fs0, t) {
        UnlinkedPreserves(fs1, t.Quar(), t.Live());
        PreservesTrans(fs0, fs1, fs);
      }
    }
  }

  lemma StagePreserves(fs0: FS, fs: FS, t: Target)
    requires RestoreStage(fs0, fs, t)
    ensures Preserves(fs0, fs)
  {
    if fs != fs0 {
      var fs1 := Chmodded(fs0, t.file, t.mode);
      ChmoddedPreserves(fs0, t.file, t.mode);
      MovedPreserves(fs1, t.Quar(), t.Live());
      PreservesTrans(fs0, fs1, Restored(fs0, t));
    }
  }

  /** How far restoring one target got. */
  predicate RestoreStage(fs0: FS, fs: FS, t: Target) {
    || fs == fs0
    || (OnlyQuarantined(fs0, t) && (fs == Chmodded(fs0, t.file, t.mode) || fs == Restored(fs0, t)))
  }

  class Helper {
    const machine: Machine
    const targets: seq<Target>
    const rootDevice: nat
    /** Directories below the live root, by relative components. */
    const liveDirs: map<seq<string>, FileId>
    /** Directories below the quarantine "files" directory, with their device. */
    var quarantineDirs: map<seq<string>, nat>
    var moved: seq<bool>
    var held: seq<FileId>
    var mutationStarted: bool
    var journal: seq<Row>

    constructor (machine: Machine, targets: seq<Target>, rootDevice: nat,
                 liveDirs: map<seq<string>, FileId>, quarantineDirs: map<seq<string>, nat>)
      ensures this.machine == machine && this.targets == targets && this.rootDevice == rootDevice
      ensures this.liveDirs == liveDirs && this.quarantineDirs == quarantineDirs
      ensures Fresh()
    {
      this.machine := machine;
      this.targets := targets;
      this.rootDevice := rootDevice;
      this.liveDirs := liveDirs;
      this.quarantineDirs := quarantineDirs;
      moved := seq(|targets|, _ => false);
      held := [];
      mutationStarted := false;
      journal := [];
    }

    ghost predicate Fresh() reads this {
      moved == seq(|targets|, _ => false) && held == [] && !mutationStarted && journal == []
    }

    /** Filesystem and images now. */
    ghost function Now(): Medium reads machine { Medium(machine.fs, machine.images) }

    function Die(reason: string): Report reads this {
      if mutationStarted then Partial(reason) else Refused(reason)
    }

    // ----- Observation -----

    method AbsentAt(s: Slot) returns (r: Try<bool>)
      requires machine.fs in machine.images
      modifies machine
      ensures Kept(r, old(machine.fs), old(machine.images), machine.fs, machine.images)
      ensures old(machine.Calm()) ==> machine.Calm() && machine.blind == old(machine.blind) && r.Value?
      ensures r.Value? ==> (r.value <==> s !in machine.fs.names)
      ensures r.Stop? ==> r.report.Ended() || r.report == Die("path absence observation failed")
      ensures machine.blind >= old(machine.blind)
        && (r.Stop? && !r.report.Ended() ==> machine.blind > old(machine.blind))
      ensures old(machine.Sure(1)) ==> r.Value? && machine.clock == old(machine.clock) + 1
    {
      var ok :- machine.Look();
      if !ok { return Stop(Die("path absence observation failed")); }
      r := Value(s !in machine.fs.names);
    }

    /** sha_fd: every byte is read; reading a directory fails. */
    method ReadAll(id: FileId) returns (r: Try<bool>)
      requires machine.fs in machine.images && id in machine.fs.inodes
      modifies machine
      ensures Kept(r, old(machine.fs), old(machine.images), machine.fs, machine.images)
      ensures old(machine.Calm()) ==>
        machine.Calm() && machine.blind == old(machine.blind)
          && (old(machine.fs).inodes[id].kind != Directory ==> r.Value?)
      ensures r.Value? ==> r.value && machine.fs.inodes[id].kind != Directory
      ensures r.Stop? ==> r.report.Ended() || r.report == Die("file read failed")
      ensures machine.blind >= old(machine.blind)
      ensures r.Stop? && !r.report.Ended() ==>
        machine.blind > old(machine.blind) || old(machine.fs).inodes[id].kind == Directory
      ensures old(machine.Sure(1)) && old(machine.fs.inodes[id].kind != Directory) ==>
        r.Value? && machine.clock == old(machine.clock) + 1
      ensures old(machine.BlindIn(0)) ==> r == Stop(Die("file read failed"))
    {
      var ok :- machine.Look();
      if !ok || machine.fs.inodes[id].kind == Directory { return Stop(Die("file read failed")); }
      r := Value(true);
    }

    /** open_exact_at. */
    method OpenExact(s: Slot, t: Target, mode: nat) returns (r: Try<bool>)
      requires machine.fs in machine.images
      modifies machine
      ensures Kept(r, old(machine.fs), old(machine.images), machine.fs, machine.images)
      ensures old(machine.Calm()) ==>
        machine.Calm() && machine.blind == old(machine.blind)
          && (ExactAt(old(machine.fs), s, t, mode) ==> r == Value(true))
      ensures r.Value? && r.value ==> ExactAt(machine.fs, s, t, mode)
      ensures r.Stop? ==> r.report.Ended() || r.report == Die("file read failed")
      ensures machine.blind >= old(machine.blind)
      ensures r.Stop? && !r.report.Ended() ==>
        machine.blind > old(machine.blind) || LeadsToDirectory(old(machine.fs), s)
      ensures old(machine.Sure(3)) && old(ExactAt(machine.fs, s, t, mode)) ==>
        r == Value(true) && machine.clock == old(machine.clock) + 3
      ensures old(machine.BlindIn(2)) && old(ExactAt(machine.fs, s, t, mode)) ==>
        r == Stop(Die("file read failed"))
    {
      var found :- machine.Look();
      if !found || s !in machine.fs.names || machine.fs.names[s] !in machine.fs.inodes { return Value(false); }
      var id := machine.fs.names[s];
      var statted :- machine.Look();
      if !statted { return Value(false); }
      var _ :- ReadAll(id);
      r := Value(id == t.file && ExactInode(machine.fs.inodes[id], t, mode));
    }

    /** open_exact_quarantine_recovery (links == {1}) and open_exact_crash_recovery (links == {1, 2}):
        metadata first, then the bytes; either of the two modes. */
    method OpenForRecovery(s: Slot, t: Target, links: set<nat>) returns (r: Try<bool>)
      requires machine.fs in machine.images
      modifies machine
      ensures Kept(r, old(machine.fs), old(machine.images), machine.fs, machine.images)
      ensures r.Value? && r.value ==> exists n :: n in links && At(machine.fs, s, t) && Intact(machine.fs, t, n)
      ensures old(machine.Calm()) ==> machine.Calm() && machine.blind == old(machine.blind)
      ensures old(machine.Calm()) && IntactIfAt(old(machine.fs), s, t, links) ==> r == Value(At(old(machine.fs), s, t))
      ensures r.Stop? ==> r.report.Ended() || r.report == Die("file read failed")
      ensures machine.blind >= old(machine.blind)
        && (r.Stop? && !r.report.Ended() ==> machine.blind > old(machine.blind))
      ensures old(machine.Sure(1)) && s !in old(machine.fs).names ==>
        r == Value(false) && machine.clock == old(machine.clock) + 1
      ensures old(machine.Sure(3)) && old(At(machine.fs, s, t) && Intact(machine.fs, t, 1)) && 1 in links ==>
        r == Value(true) && machine.clock == old(machine.clock) + 3
    {
      var found :- machine.Look();
      if !found || s !in machine.fs.names || machine.fs.names[s] !in machine.fs.inodes { return Value(false); }
      var id := machine.fs.names[s];
      var statted :- machine.Look();
      if !statted { return Value(false); }
      var n := machine.fs.inodes[id];
      if !(n.kind == Regular && id == t.file && n.size == t.size && n.links in links
           && n.uid == t.uid && n.gid == t.gid && (n.mode == QUARANTINE_MODE || n.mode == t.mode))
      {
        return Value(false);
      }
      var _ :- ReadAll(id);
      r := Value(n.sha == t.sha);
    }

    function LastTarget(): Target requires |targets| > 0 { targets[|targets| - 1] }

    // ----- System calls on one target -----

    /** Every state a power loss could leave now is one reconciliation can undo. */
    ghost predicate Safe() reads this, machine {
      DistinctFiles(targets) && Bound(machine.fs, machine.images, targets)
    }

    predicate Dies(report: Report) reads this {
      if mutationStarted then report.Partial? else report.Refused?
    }

    method ChmodTarget(i: nat, mode: nat) returns (r: Try<bool>)
      requires i < |targets| && machine.fs in machine.images && targets[i].file in machine.fs.inodes
      requires mode == QUARANTINE_MODE || mode == targets[i].mode
      modifies machine
      ensures machine.fs in machine.images
      ensures old(Safe()) ==> Safe()
      ensures old(machine.Calm()) ==> machine.Calm() && machine.blind == old(machine.blind) && r == Value(true)
      ensures r.Value? && r.value ==>
        && machine.fs == Chmodded(old(machine.fs), targets[i].file, mode)
        && machine.images == AfterChmod(old(machine.images), targets[i].file, mode)
      ensures r.Value? && !r.value ==> machine.fs == old(machine.fs) && machine.images == old(machine.images)
      ensures r.Stop? ==> r.report.Ended()
      ensures machine.blind == old(machine.blind)
      ensures old(machine.Sure(1)) ==> r == Value(true) && machine.clock == old(machine.clock) + 1
      ensures r.Stop? && r.report.Killed? ==>
        machine.fs == old(machine.fs) || machine.fs == Chmodded(old(machine.fs), targets[i].file, mode)
    {
      if Safe() { BoundAfterChmod(machine.fs, machine.images, targets, i, mode); }
      r := machine.Chmod(targets[i].file, mode);
    }

    method RenameTarget(i: nat, to: Side) returns (r: Try<bool>)
      requires i < |targets| && machine.fs in machine.images
      modifies machine
      ensures machine.fs in machine.images
      ensures old(Safe()) ==> Safe()
      ensures old(machine.Calm()) ==> machine.Calm() && machine.blind == old(machine.blind) && r.Value?
      ensures old(machine.Calm() && CanMove(machine.fs, Source(i, to), Destination(i, to))) ==> r == Value(true)
      ensures r.Value? && r.value ==>
        && CanMove(old(machine.fs), Source(i, to), Destination(i, to))
        && machine.fs == Moved(old(machine.fs), Source(i, to), Destination(i, to))
        && machine.images == AfterRename(old(machine.images), Source(i, to), Destination(i, to))
      ensures r.Value? && !r.value ==> machine.fs == old(machine.fs) && machine.images == old(machine.images)
      ensures r.Stop? ==> r.report.Ended()
      ensures machine.blind == old(machine.blind)
      ensures old(machine.Sure(1)) && old(CanMove(machine.fs, Source(i, to), Destination(i, to))) ==>
        r == Value(true) && machine.clock == old(machine.clock) + 1
      ensures r.Stop? && r.report.Killed? ==>
        || machine.fs == old(machine.fs)
        || (CanMove(old(machine.fs), Source(i, to), Destination(i, to))
          && machine.fs == Moved(old(machine.fs), Source(i, to), Destination(i, to)))
    {
      if Safe() { BoundAfterRename(machine.fs, machine.images, targets, i, Source(i, to), Destination(i, to)); }
      r := machine.Rename(Source(i, to), Destination(i, to));
    }

    function Source(i: nat, to: Side): Slot requires i < |targets| {
      if to == LIVE then targets[i].Quar() else targets[i].Live()
    }

    function Destination(i: nat, to: Side): Slot requires i < |targets| {
      if to == LIVE then targets[i].Live() else targets[i].Quar()
    }

    method SyncParent(i: nat, side: Side) returns (r: Try<bool>)
      requires i < |targets| && machine.fs in machine.images
      modifies machine
      ensures machine.fs in machine.images
      ensures old(Safe()) ==> Safe()
      ensures old(machine.Calm()) ==> machine.Calm() && machine.blind == old(machine.blind) && r == Value(true)
      ensures r.Value? ==> machine.fs == old(machine.fs)
      ensures r.Value? && r.value ==>
        machine.images == AfterSyncDirectory(old(machine.images), machine.fs, side, targets[i].dir)
      ensures r.Value? && !r.value ==> machine.images == old(machine.images)
      ensures r.Stop? ==> r.report.Ended()
      ensures machine.blind == old(machine.blind)
      ensures old(machine.Sure(1)) ==> r == Value(true) && machine.clock == old(machine.clock) + 1
      ensures r.Stop? && r.report.Killed? ==> machine.fs == old(machine.fs)
    {
      r := machine.SyncDirectory(side, targets[i].dir);
    }

    method SyncTarget(i: nat) returns (r: Try<bool>)
      requires i < |targets| && machine.fs in machine.images
      requires targets[i].file in machine.fs.inodes
      modifies machine
      ensures machine.fs in machine.images
      ensures old(Safe()) ==> Safe()
      ensures old(machine.Calm()) ==> machine.Calm() && machine.blind == old(machine.blind) && r == Value(true)
      ensures r.Value? ==> machine.fs == old(machine.fs)
      ensures r.Value? && r.value ==> machine.images == AfterSyncFile(old(machine.images), machine.fs, targets[i].file)
      ensures r.Value? && !r.value ==> machine.images == old(machine.images)
      ensures r.Stop? ==> r.report.Ended()
      ensures machine.blind == old(machine.blind)
      ensures old(machine.Sure(1)) ==> r == Value(true) && machine.clock == old(machine.clock) + 1
      ensures r.Stop? && r.report.Killed? ==> machine.fs == old(machine.fs)
    {
      r := machine.SyncFile(targets[i].file);
    }

    // ----- Moving one target back -----

    /** restore_one. Value(false) stands for its -1. */
    method RestoreOne(i: nat) returns (r: Try<bool>)
      requires i < |targets| && machine.fs in machine.images
      modifies machine
      ensures machine.fs in machine.images
      ensures r.Value? && r.value ==>
        && OnlyQuarantined(old(machine.fs), targets[i]) && machine.fs == Restored(old(machine.fs), targets[i])
        && machine.images == RestoredImages(old(machine.fs), old(machine.images), targets[i])
      ensures !(r.Stop? && r.report.Crashed?) ==> RestoreStage(old(machine.fs), machine.fs, targets[i])
      ensures old(Safe()) ==> Safe()
      ensures old(PendingOnly(machine.fs, machine.images, targets[i])) && r.Value? && r.value ==> machine.Settled()
      ensures old(machine.Calm()) ==> machine.Calm() && machine.blind == old(machine.blind)
      ensures old(machine.Calm() && OnlyQuarantined(machine.fs, targets[i])) ==> r == Value(true)
      ensures r.Stop? ==> r.report.Ended() || Dies(r.report)
      ensures machine.blind >= old(machine.blind)
      ensures r.Stop? && r.report.Refused? ==> machine.blind > old(machine.blind)
      ensures old(machine.BlindIn(11)) && old(OnlyQuarantined(machine.fs, targets[i])) ==>
        r == Stop(Die("file read failed")) && machine.fs == Restored(old(machine.fs), targets[i])
    {
      hide Machine.Calm;
      var t := targets[i];
      var free :- AbsentAt(t.Live());
      if !free { return Value(false); }
      var found :- OpenForRecovery(t.Quar(), t, {1});
      if !found { return Value(false); }
      var chmodded :- ChmodTarget(i, t.mode);
      if !chmodded { return Value(false); }
      var synced :- SyncTarget(i);
      if !synced { return Value(false); }
      r := RestoreName(i, old(machine.fs), old(machine.images));
    }

    /** The second half of restore_one: rename back, make both directories durable, verify. */
    method RestoreName(i: nat, ghost fs0: FS, ghost images0: set<FS>) returns (r: Try<bool>)
      requires i < |targets| && OnlyQuarantined(fs0, targets[i])
      requires machine.fs == Chmodded(fs0, targets[i].file, targets[i].mode) && machine.fs in machine.images
      requires machine.images == RemodedImages(fs0, images0, targets[i])
      modifies machine
      ensures machine.fs in machine.images
      ensures r.Value? && r.value ==>
        machine.fs == Restored(fs0, targets[i]) && machine.images == RestoredImages(fs0, images0, targets[i])
      ensures !(r.Stop? && r.report.Crashed?) ==> RestoreStage(fs0, machine.fs, targets[i])
      ensures old(Safe()) ==> Safe()
      ensures PendingOnly(fs0, images0, targets[i]) && r.Value? && r.value ==> machine.Settled()
      ensures old(machine.Calm()) ==> machine.Calm() && machine.blind == old(machine.blind) && r == Value(true)
      ensures r.Stop? ==> r.report.Ended() || Dies(r.report)
      ensures machine.blind >= old(machine.blind)
      ensures r.Stop? && r.report.Refused? ==> machine.blind > old(machine.blind)
      ensures old(machine.BlindIn(5)) ==> r == Stop(Die("file read failed")) && machine.fs == Restored(fs0, targets[i])
    {
      hide Machine.Calm;
      var t := targets[i];
      ghost var synced := machine.images;
      var renamed :- RenameTarget(i, LIVE);
      if !renamed { return Value(false); }
      RestoredIsOriginal(fs0, t);
      assert machine.fs == Restored(fs0, t);
      var durable :- SyncBothParents(i, LIVE, QUARANTINE);
      if !durable { return Value(false); }
      if PendingOnly(fs0, images0, t) { RestoreSettles(fs0, images0, t, synced, machine.images); }
      r := VerifyLive(i);
    }

    method VerifyLive(i: nat) returns (r: Try<bool>)
      requires i < |targets| && machine.fs in machine.images
      modifies machine
      ensures Kept(r, old(machine.fs), old(machine.images), machine.fs, machine.images)
      ensures old(Safe()) ==> Safe()
      ensures r.Value? && r.value ==> Original(machine.fs, targets[i])
      ensures old(machine.Calm()) ==> machine.Calm() && machine.blind == old(machine.blind)
      ensures old(machine.Calm() && Original(machine.fs, targets[i])) ==> r == Value(true)
      ensures r.Stop? ==> r.report.Ended() || Dies(r.report)
      ensures machine.blind >= old(machine.blind)
      ensures r.Stop? && r.report.Refused? ==>
        machine.blind > old(machine.blind) || LeadsToDirectory(old(machine.fs), targets[i].Live())
      ensures old(machine.BlindIn(2)) && old(Original(machine.fs, targets[i])) ==> r == Stop(Die("file read failed"))
    {
      hide Machine.Calm;
      var t := targets[i];
      var exact :- OpenExact(t.Live(), t, t.mode);
      if !exact { return Value(false); }
      r := AbsentAt(t.Quar());
    }

    method SyncBothParents(i: nat, first: Side, second: Side) returns (r: Try<bool>)
      requires i < |targets| && machine.fs in machine.images
      modifies machine
      ensures machine.fs in machine.images
      ensures old(Safe()) ==> Safe()
      ensures old(machine.Calm()) ==> machine.Calm() && machine.blind == old(machine.blind) && r == Value(true)
      ensures r.Value? ==> machine.fs == old(machine.fs)
      ensures r.Value? && r.value ==>
        machine.images == AfterSyncDirectory(AfterSyncDirectory(old(machine.images), machine.fs, first, targets[i].dir),
                                             machine.fs, second, targets[i].dir)
      ensures r.Stop? ==> r.report.Ended()
      ensures machine.blind == old(machine.blind)
      ensures old(machine.Sure(2)) ==> r == Value(true) && machine.clock == old(machine.clock) + 2
      ensures r.Stop? && r.report.Killed? ==> machine.fs == old(machine.fs)
    {
      var synced :- SyncParent(i, first);
      if !synced { return Value(false); }
      r := SyncParent(i, second);
    }

    // ----- Follow-up modes -----

    predicate ParentBound(t: Target) reads this`quarantineDirs {
      && t.dir in liveDirs && liveDirs[t.dir] == t.parent
      && t.dir in quarantineDirs && quarantineDirs[t.dir] == rootDevice
    }

    ghost predicate ParentsBound() reads this`quarantineDirs {
      forall i | 0 <= i < |targets| :: ParentBound(targets[i])
    }

    method OpenQuarantineTargets() returns (r: Try<bool>)
      requires machine.fs in machine.images
      modifies machine
      ensures Kept(r, old(machine.fs), old(machine.images), machine.fs, machine.images)
      ensures old(Safe()) ==> Safe()
      ensures r.Value? ==> r.value && ParentsBound()
      ensures old(machine.Calm()) ==>
        machine.Calm() && machine.blind == old(machine.blind) && (ParentsBound() ==> r.Value?)
      ensures r.Stop? ==> r.report.Ended() || Dies(r.report)
      ensures machine.blind >= old(machine.blind)
      ensures old(machine.Sure(2 * |targets|)) && ParentsBound() ==>
        r.Value? && machine.clock == old(machine.clock) + 2 * |targets|
    {
      hide Machine.Calm;
      for i := 0 to |targets|
        invariant machine.fs == old(machine.fs) && machine.images == old(machine.images)
        invariant old(machine.Calm()) ==> machine.Calm() && machine.blind == old(machine.blind)
        invariant forall k | 0 <= k < i :: ParentBound(targets[k])
        invariant machine.blind >= old(machine.blind) && machine.clock == old(machine.clock) + 2 * i
      {
        var _ :- OpenParents(targets[i]);
      }
      r := Value(true);
    }

    method OpenParents(t: Target) returns (r: Try<bool>)
      requires machine.fs in machine.images
      modifies machine
      ensures Kept(r, old(machine.fs), old(machine.images), machine.fs, machine.images)
      ensures r.Value? ==> ParentBound(t) && machine.clock == old(machine.clock) + 2
      ensures old(machine.Calm()) ==>
        machine.Calm() && machine.blind == old(machine.blind) && (ParentBound(t) ==> r.Value?)
      ensures r.Stop? ==> r.report.Ended() || Dies(r.report)
      ensures machine.blind >= old(machine.blind)
      ensures old(machine.Sure(2)) && ParentBound(t) ==> r.Value?
    {
      var live :- machine.Look();
      if !live || t.dir !in liveDirs || liveDirs[t.dir] != t.parent {
        return Stop(Die("follow-up target parent identity drift"));
      }
      var quar :- machine.Look();
      if !quar || t.dir !in quarantineDirs || quarantineDirs[t.dir] != rootDevice {
        return Stop(Die("follow-up quarantine parent filesystem drift"));
      }
      r := Value(true);
    }

    ghost predicate Claimed(fs: FS, quarantined: bool) {
      if quarantined then AllQuarantined(fs, targets) else AllOriginal(fs, targets)
    }

    /** observe_state: nothing is changed, and the line is printed exactly for the claimed state. */
    method ObserveState(quarantined: bool) returns (r: Try<State>)
      requires machine.fs in machine.images
      modifies machine
      ensures Kept(r, old(machine.fs), old(machine.images), machine.fs, machine.images)
      ensures old(Safe()) ==> Safe()
      ensures r.Value? ==> r.value == if quarantined then QUARANTINED_EXACT else ORIGINAL_EXACT
      ensures r.Value? ==> Claimed(machine.fs, quarantined)
      ensures old(machine.Calm()) && ParentsBound() ==> (r.Value? <==> Claimed(old(machine.fs), quarantined))
    {
      hide Machine.Calm, Machine.Sure, Machine.BlindIn;
      var _ :- OpenQuarantineTargets();
      for i := 0 to |targets|
        invariant machine.fs == old(machine.fs) && machine.images == old(machine.images)
        invariant old(machine.Calm()) ==> machine.Calm()
        invariant forall k | 0 <= k < i ::
          if quarantined then Quarantined(machine.fs, targets[k]) else Original(machine.fs, targets[k])
      {
        var _ :- ObserveOne(targets[i], quarantined);
      }
      r := Value(if quarantined then QUARANTINED_EXACT else ORIGINAL_EXACT);
    }

    method ObserveOne(t: Target, quarantined: bool) returns (r: Try<bool>)
      requires machine.fs in machine.images
      modifies machine
      ensures Kept(r, old(machine.fs), old(machine.images), machine.fs, machine.images)
      ensures r.Value? ==> if quarantined then Quarantined(machine.fs, t) else Original(machine.fs, t)
      ensures old(machine.Calm()) ==> machine.Calm()
      ensures old(machine.Calm()) ==>
        (r.Value? <==> if quarantined then Quarantined(old(machine.fs), t) else Original(old(machine.fs), t))
    {
      var present := if quarantined then t.Quar() else t.Live();
      var vacant := if quarantined then t.Live() else t.Quar();
      var absent :- AbsentAt(vacant);
      if !absent { return Stop(Partial("unexpected object occupies absent side")); }
      var exact :- OpenExact(present, t, if quarantined then QUARANTINE_MODE else t.mode);
      if !exact { return Stop(Partial("expected exact object unavailable")); }
      r := Value(true);
    }

    // ----- Rollback -----

    /** The first loop of rollback_transaction: looks only. */
    method RollbackPreflight() returns (r: Try<bool>)
      requires machine.fs in machine.images
      modifies machine
      ensures Kept(r, old(machine.fs), old(machine.images), machine.fs, machine.images)
      ensures old(Safe()) ==> Safe()
      ensures r.Value? ==> AllQuarantined(machine.fs, targets)
      ensures old(machine.Calm()) ==>
        machine.Calm() && machine.blind == old(machine.blind)
          && (r.Value? <==> AllQuarantined(old(machine.fs), targets))
      ensures machine.blind >= old(machine.blind)
      ensures old(machine.Sure(4 * |targets|)) && old(AllQuarantined(machine.fs, targets)) ==>
        r.Value? && machine.clock == old(machine.clock) + 4 * |targets|
    {
      hide Machine.Calm;
      for i := 0 to |targets|
        invariant machine.fs == old(machine.fs) && machine.images == old(machine.images)
        invariant old(machine.Calm()) ==> machine.Calm() && machine.blind == old(machine.blind)
        invariant forall k | 0 <= k < i :: Quarantined(machine.fs, targets[k])
        invariant machine.blind >= old(machine.blind)
        invariant old(machine.Sure(4 * |targets|)) && old(AllQuarantined(machine.fs, targets)) ==>
          machine.clock == old(machine.clock) + 4 * i
      {
        var t := targets[i];
        var free :- AbsentAt(t.Live());
        if !free { return Stop(Partial("rollback source collision")); }
        var exact :- OpenExact(t.Quar(), t, QUARANTINE_MODE);
        if !exact { return Stop(Partial("rollback quarantine drift")); }
      }
      r := Value(true);
    }

    /** rollback_transaction. */
    method RollbackTransaction() returns (r: Try<State>)
      requires machine.fs in machine.images
      modifies machine
      ensures r.Value? ==> r.value == ORIGINAL_EXACT && AllQuarantined(old(machine.fs), targets)
      ensures r.Value? ==> RestoredDownTo(old(machine.fs), targets, 0) == Some(machine.fs)
      ensures r.Value? && (WellLinked(old(machine.fs)) || DistinctFiles(targets)) ==> AllOriginal(machine.fs, targets)
      ensures !(r.Stop? && r.report.Crashed?) ==> Preserves(old(machine.fs), machine.fs)
      ensures old(Safe()) ==> Safe()
      ensures old(machine.Settled()) && r.Value? ==> machine.Settled()
      ensures old(machine.Calm()) && DistinctFiles(targets) ==>
        (r.Value? <==> ParentsBound() && AllQuarantined(old(machine.fs), targets))
      ensures machine.blind >= old(machine.blind)
      // exit status 20: nothing changed, unless every target was in quarantine and a call that only looks failed
      ensures r.Stop? && r.report.Refused? && Now() != old(Now()) ==>
        machine.blind > old(machine.blind) && ParentsBound() && AllQuarantined(old(machine.fs), targets)
      ensures old(machine.Calm()) && r.Stop? && r.report.Refused? ==> Now() == old(Now())
      ensures
        && |targets| > 0 && ParentsBound() && AllQuarantined(old(machine.fs), targets)
        && old(machine.BlindIn(6 * |targets| + 11)) ==>
        r == Stop(Die("file read failed")) && machine.fs == Restored(old(machine.fs), LastTarget())
    {
      var _ :- OpenQuarantineTargets();
      var _ :- RollbackPreflight();
      r := RestoreAll();
    }

    /** The second loop of rollback_transaction: last target first. */
    method RestoreAll() returns (r: Try<State>)
      requires machine.fs in machine.images
      modifies machine
      ensures r.Value? ==> r.value == ORIGINAL_EXACT
      ensures r.Value? ==> RestoredDownTo(old(machine.fs), targets, 0) == Some(machine.fs)
      ensures r.Value? && (WellLinked(old(machine.fs)) || DistinctFiles(targets)) ==> AllOriginal(machine.fs, targets)
      ensures !(r.Stop? && r.report.Crashed?) ==> Preserves(old(machine.fs), machine.fs)
      ensures old(Safe()) ==> Safe()
      ensures old(machine.Settled()) && r.Value? ==> machine.Settled()
      ensures old(machine.Calm()) && AllQuarantined(old(machine.fs), targets) && DistinctFiles(targets) ==> r.Value?
      ensures old(machine.Calm()) ==> machine.blind == old(machine.blind)
      ensures machine.blind >= old(machine.blind)
      ensures r.Stop? && r.report.Refused? ==> machine.blind > old(machine.blind)
      ensures |targets| > 0 && old(machine.BlindIn(11)) && old(OnlyQuarantined(machine.fs, LastTarget())) ==>
        r == Stop(Die("file read failed")) && machine.fs == Restored(old(machine.fs), LastTarget())
    {
      hide WellLinked, Recoverable, Original, Restored, RestoredDownTo, Preserves, Bound, Machine.Calm;
      StartRestore(machine.fs);
      var i := |targets|;
      while i > 0
        invariant 0 <= i <= |targets| && machine.fs in machine.images
        invariant RestoredDownTo(old(machine.fs), targets, i) == Some(machine.fs)
        invariant Preserves(old(machine.fs), machine.fs)
        invariant old(Safe()) ==> Safe()
        invariant old(machine.Settled()) ==> machine.Settled()
        invariant old(machine.Calm()) ==> machine.Calm() && machine.blind == old(machine.blind)
        invariant machine.blind >= old(machine.blind)
          && (i == |targets| ==> machine.fs == old(machine.fs) && machine.clock == old(machine.clock))
        invariant i < |targets| ==> !(old(machine.BlindIn(11)) && OnlyQuarantined(old(machine.fs), LastTarget()))
      {
        i := i - 1;
        var _ :- RestoreNext(i, old(machine.fs));
      }
      if WellLinked(old(machine.fs)) || DistinctFiles(targets) { RestoredAreOriginal(old(machine.fs), targets, 0); }
      r := Value(ORIGINAL_EXACT);
    }

    lemma StartRestore(fs: FS)
      ensures RestoredDownTo(fs, targets, |targets|) == Some(fs) && Preserves(fs, fs)
    {
    }

    /** One iteration of it. */
    method RestoreNext(i: nat, ghost start: FS) returns (r: Try<bool>)
      requires i < |targets| && machine.fs in machine.images
      requires RestoredDownTo(start, targets, i + 1) == Some(machine.fs) && Preserves(start, machine.fs)
      modifies machine
      ensures machine.fs in machine.images
      ensures r.Value? ==> RestoredDownTo(start, targets, i) == Some(machine.fs)
      ensures !(r.Stop? && r.report.Crashed?) ==> Preserves(start, machine.fs)
      ensures old(Safe()) ==> Safe()
      ensures old(machine.Settled()) && r.Value? ==> machine.Settled()
      ensures old(machine.Calm()) ==>
        machine.Calm() && machine.blind == old(machine.blind)
          && (AllQuarantined(start, targets) && DistinctFiles(targets) ==> r.Value?)
      ensures machine.blind >= old(machine.blind)
      ensures r.Stop? && r.report.Refused? ==> machine.blind > old(machine.blind)
      ensures old(machine.BlindIn(11)) && old(OnlyQuarantined(machine.fs, targets[i])) ==>
        r == Stop(Die("file read failed")) && machine.fs == Restored(old(machine.fs), targets[i])
    {
      hide WellLinked, Recoverable, Original, Restored, Preserves, Bound, Machine.Calm;
      ghost var fs := machine.fs;
      if AllQuarantined(start, targets) && DistinctFiles(targets) { RestoreFindsAll(start, targets, i + 1); }
      var restored := RestoreOne(i);
      if restored.Stop? && restored.report.Crashed? { return Stop(Crashed); }
      StagePreserves(fs, machine.fs, targets[i]);
      PreservesTrans(start, fs, machine.fs);
      if restored.Stop? { return Stop(restored.report); }
      if !restored.value { return Stop(Partial("rollback partial or diverged")); }
      r := Value(true);
    }

    // ----- Crash reconciliation -----

    /** One target of reconcile_rollback's first loop. Value(false): settled at its live name;
        Value(true): only in quarantine, still to be restored. */
    method ReconcileOne(i: nat) returns (r: Try<bool>)
      requires i < |targets| && machine.fs in machine.images
      modifies machine
      ensures machine.fs in machine.images
      ensures r.Value? && !r.value ==>
        SettledFrom(old(machine.fs), machine.fs, targets[i])
          && machine.images == SettledImages(old(machine.fs), old(machine.images), targets[i])
      ensures r.Value? && r.value ==>
        machine.fs == old(machine.fs) && machine.images == old(machine.images) && !AtHome(machine.fs, targets[i])
      ensures !(r.Stop? && r.report.Crashed?) ==> SettleStage(old(machine.fs), machine.fs, targets[i])
      ensures old(Safe()) ==> Safe()
      ensures old(machine.Settled()) && r.Value? ==> machine.Settled()
      ensures old(machine.Calm()) ==> machine.Calm() && machine.blind == old(machine.blind)
      ensures old(machine.Calm() && Reachable(machine.fs, targets[i])) ==>
        r == Value(OnlyQuarantined(old(machine.fs), targets[i]))
      ensures machine.blind >= old(machine.blind)
      ensures r.Stop? && r.report.Refused? ==> machine.blind > old(machine.blind)
      ensures old(machine.Sure(5)) && old(OnlyQuarantined(machine.fs, targets[i])) ==>
        r == Value(true) && machine.clock == old(machine.clock) + 5
    {
      hide Machine.Calm;
      var t := targets[i];
      var live :- OpenForRecovery(t.Live(), t, {1, 2});
      var quar :- OpenForRecovery(t.Quar(), t, {1, 2});
      if live && quar {
        r := ReconcileBoth(i);
      } else if live {
        r := ReconcileLive(i);
      } else if quar {
        var free :- AbsentAt(t.Live());
        if !free { return Stop(Partial("non-exact source collision")); }
        r := Value(true);
      } else {
        r := Stop(Partial("target is neither exact original nor exact quarantine"));
      }
    }

    /** Both names: the same inode with exactly these two links, then the quarantine name goes. */
    method ReconcileBoth(i: nat) returns (r: Try<bool>)
      requires i < |targets| && machine.fs in machine.images
      requires At(machine.fs, targets[i].Live(), targets[i]) && At(machine.fs, targets[i].Quar(), targets[i])
      requires Intact(machine.fs, targets[i], 1) || Intact(machine.fs, targets[i], 2)
      modifies machine
      ensures machine.fs in machine.images
      ensures r.Value? ==> !r.value && SettledFrom(old(machine.fs), machine.fs, targets[i])
      ensures r.Value? ==> machine.images == SettledImages(old(machine.fs), old(machine.images), targets[i])
      ensures !(r.Stop? && r.report.Crashed?) ==> SettleStage(old(machine.fs), machine.fs, targets[i])
      ensures old(Safe()) ==> Safe()
      ensures old(machine.Settled()) && r.Value? ==> machine.Settled()
      ensures old(machine.Calm()) ==>
        machine.Calm() && machine.blind == old(machine.blind) && (OnBoth(old(machine.fs), targets[i]) ==> r.Value?)
      ensures machine.blind >= old(machine.blind)
      ensures r.Stop? && r.report.Refused? ==> machine.blind > old(machine.blind)
    {
      hide Machine.Calm, Machine.Sure, Machine.BlindIn;
      var t := targets[i];
      ghost var fs0 := machine.fs;
      var statted :- machine.Look();
      if !statted || machine.fs.inodes[t.file].links != 2 {
        return Stop(Partial("duplicate non-identical object on both sides"));
      }
      var _ :- RemodeTarget(i, "duplicate crash state mode recovery failed");
      var unlinked :- UnlinkDurably(i);
      if !unlinked { return Stop(Partial("duplicate crash state link recovery failed")); }
      SettleSettles(fs0, t);
      SettleReaches(fs0, t);
      var exact :- VerifyLive(i);
      if !exact { return Stop(Partial("duplicate crash state verification failed")); }
      r := Value(false);
    }

    /** Set the bound mode back and make it durable. */
    method RemodeTarget(i: nat, reason: string) returns (r: Try<bool>)
      requires i < |targets| && machine.fs in machine.images && targets[i].file in machine.fs.inodes
      modifies machine
      ensures machine.fs in machine.images
      ensures r.Value? ==> machine.fs == Chmodded(old(machine.fs), targets[i].file, targets[i].mode)
      ensures r.Value? ==> machine.images == RemodedImages(old(machine.fs), old(machine.images), targets[i])
      ensures !(r.Stop? && r.report.Crashed?) ==>
        machine.fs == old(machine.fs) || machine.fs == Chmodded(old(machine.fs), targets[i].file, targets[i].mode)
      ensures old(Safe()) ==> Safe()
      ensures old(machine.Settled()) && r.Value? ==> machine.Settled()
      ensures old(machine.Calm()) ==> machine.Calm() && machine.blind == old(machine.blind) && r.Value?
      ensures machine.blind == old(machine.blind)
      ensures r.Stop? ==> !r.report.Refused?
    {
      ChmodSettles(machine.fs, targets[i], targets[i].mode);
      var chmodded :- ChmodTarget(i, targets[i].mode);
      if !chmodded { return Stop(Partial(reason)); }
      var synced :- SyncTarget(i);
      if !synced { return Stop(Partial(reason)); }
      r := Value(true);
    }

    method UnlinkDurably(i: nat) returns (r: Try<bool>)
      requires i < |targets| && machine.fs in machine.images && OnBoth(machine.fs, targets[i])
      modifies machine
      ensures machine.fs in machine.images
      ensures old(Safe()) ==> Safe()
      ensures old(machine.Calm()) ==> machine.Calm() && machine.blind == old(machine.blind) && r == Value(true)
      ensures r.Value? && r.value ==>
        && machine.fs == Unlinked(old(machine.fs), targets[i].Quar())
        && machine.images
           == AfterSyncDirectory(AfterUnlink(old(machine.images), targets[i].Quar()), machine.fs, QUARANTINE,
             targets[i].dir)
      ensures !(r.Stop? && r.report.Crashed?) ==>
        machine.fs == old(machine.fs) || machine.fs == Unlinked(old(machine.fs), targets[i].Quar())
      ensures r.Stop? ==> r.report.Ended()
      ensures machine.blind == old(machine.blind)
    {
      hide Machine.Calm, Machine.Sure, Machine.BlindIn;
      var unlinked :- UnlinkTarget(i);
      if !unlinked { return Value(false); }
      r := SyncParent(i, QUARANTINE);
    }

    method UnlinkTarget(i: nat) returns (r: Try<bool>)
      requires i < |targets| && machine.fs in machine.images && OnBoth(machine.fs, targets[i])
      modifies machine
      ensures machine.fs in machine.images
      ensures old(Safe()) ==> Safe()
      ensures old(machine.Calm()) ==> machine.Calm() && machine.blind == old(machine.blind) && r == Value(true)
      ensures r.Value? && r.value ==>
        && machine.fs == Unlinked(old(machine.fs), targets[i].Quar())
        && machine.images == AfterUnlink(old(machine.images), targets[i].Quar())
      ensures r.Value? && !r.value ==> machine.fs == old(machine.fs) && machine.images == old(machine.images)
      ensures r.Stop? ==> r.report.Ended()
      ensures machine.blind == old(machine.blind)
      ensures r.Stop? && r.report.Killed? ==>
        machine.fs == old(machine.fs) || machine.fs == Unlinked(old(machine.fs), targets[i].Quar())
    {
      if Safe() { BoundAfterUnlink(machine.fs, machine.images, targets, i); }
      r := machine.Unlink(targets[i].Quar());
    }

    /** Only the live name leads to the object: set its mode back and verify. */
    method ReconcileLive(i: nat) returns (r: Try<bool>)
      requires i < |targets| && machine.fs in machine.images
      requires At(machine.fs, targets[i].Live(), targets[i])
      requires Intact(machine.fs, targets[i], 1) || Intact(machine.fs, targets[i], 2)
      modifies machine
      ensures machine.fs in machine.images
      ensures r.Value? ==> !r.value && SettledFrom(old(machine.fs), machine.fs, targets[i])
      ensures r.Value? ==> machine.images == SettledImages(old(machine.fs), old(machine.images), targets[i])
      ensures !(r.Stop? && r.report.Crashed?) ==> SettleStage(old(machine.fs), machine.fs, targets[i])
      ensures old(Safe()) ==> Safe()
      ensures old(machine.Settled()) && r.Value? ==> machine.Settled()
      ensures old(machine.Calm()) ==>
        machine.Calm() && machine.blind == old(machine.blind) && (OnlyLive(old(machine.fs), targets[i]) ==> r.Value?)
      ensures machine.blind >= old(machine.blind)
      ensures r.Stop? && r.report.Refused? ==> machine.blind > old(machine.blind)
    {
      hide Machine.Calm, Machine.Sure, Machine.BlindIn;
      var t := targets[i];
      ghost var fs0 := machine.fs;
      var _ :- RemodeTarget(i, "live crash state mode recovery failed");
      var free :- AbsentAt(t.Quar());
      if !free { return Stop(Partial("non-exact quarantine collision")); }
      var exact :- OpenExact(t.Live(), t, t.mode);
      if !exact { return Stop(Partial("live crash state verification failed")); }
      r := Value(false);
    }

    /** The first loop handled `n` targets. */
    ghost predicate Handled(start: Medium, n: nat) reads this, machine {
      && n <= |targets| && |moved| == |targets| && Now() == Forward(start, targets, n)
      && forall k | 0 <= k < n :: moved[k] <==> Waits(start, targets, k)
    }

    /** reconcile_rollback. */
    method ReconcileRollback() returns (r: Try<State>)
      requires machine.fs in machine.images && |moved| == |targets|
      modifies this`moved, machine
      ensures r.Value? ==> r.value == ORIGINAL_EXACT_RECONCILED
      ensures r.Value? ==> Backward(old(Now()), targets, 0) == Some(Now())
      ensures r.Value? && DistinctFiles(targets) ==> AllOriginal(machine.fs, targets)
      ensures r.Value? && WellLinked(old(machine.fs)) ==>
        (AllOriginal(machine.fs, targets) <==> AliasModesAgree(targets))
      ensures !(r.Stop? && r.report.Crashed?) ==> Preserves(old(machine.fs), machine.fs)
      ensures old(Safe()) ==> Safe()
      ensures old(machine.Settled()) && r.Value? ==> machine.Settled()
      ensures old(Safe() && machine.Calm()) && ParentsBound() ==> r.Value?
      ensures old(machine.Calm()) && ParentsBound() && SettledThrough(old(machine.fs), targets, |targets|).Some? ==>
        r.Value? && SettledThrough(old(machine.fs), targets, |targets|) == Some(machine.fs)
      ensures machine.blind >= old(machine.blind)
      // exit status 20: nothing changed, unless a call that only looks failed
      ensures r.Stop? && r.report.Refused? && Now() != old(Now()) ==>
        machine.blind > old(machine.blind) && ParentsBound()
      ensures old(machine.Calm()) && r.Stop? && r.report.Refused? ==> Now() == old(Now())
      ensures
        && |targets| > 0 && ParentsBound() && AllQuarantined(old(machine.fs), targets)
        && old(machine.BlindIn(7 * |targets| + 11)) ==>
        r == Stop(Die("file read failed")) && machine.fs == Restored(old(machine.fs), LastTarget())
    {
      ghost var start := Now();
      NamesStart(start);
      StartFacts();
      hide Safe, Preserves, WellLinked, DistinctFiles, Recoverable, Forward, Backward, Waits, SettledThrough,
        OnlyQuarantined, Quarantined, Restored, Original, AliasModesAgree, ParentBound, Tame, Machine.Calm;
      var _ :- OpenQuarantineTargets();
      var _ :- ReconcileNames();
      r := RestoreMoved(start);
      if r.Value? { ReconciledFacts(start); }
    }

    /** What the value of a successful run means. */
    lemma ReconciledFacts(start: Medium)
      requires Backward(start, targets, 0) == Some(Now())
      ensures DistinctFiles(targets) ==> AllOriginal(machine.fs, targets)
      ensures WellLinked(start.fs) ==> (AllOriginal(machine.fs, targets) <==> AliasModesAgree(targets))
      ensures start.images == {start.fs} ==> machine.Settled()
    {
      hide Backward, Original, AliasModesAgree, WellLinked, DistinctFiles;
      if Tame(start.fs, targets) { BackwardTame(start, targets, 0); }
      if start.images == {start.fs} { BackwardSettles(start, targets, 0); }
      if AllOriginal(machine.fs, targets) { OriginalModesAgree(machine.fs, targets); }
    }

    /** The first loop of reconcile_rollback. */
    method ReconcileNames() returns (r: Try<bool>)
      requires machine.fs in machine.images && |moved| == |targets|
      modifies this`moved, machine
      ensures machine.fs in machine.images && |moved| == |targets|
      ensures r.Value? ==> Handled(old(Now()), |targets|)
      ensures r.Value? && Tame(old(machine.fs), targets) ==>
        Tame(machine.fs, targets) && forall k | 0 <= k < |targets| && !moved[k] :: Original(machine.fs, targets[k])
      ensures !(r.Stop? && r.report.Crashed?) ==> Preserves(old(machine.fs), machine.fs)
      ensures old(Safe()) ==> Safe()
      ensures old(machine.Settled()) && r.Value? ==> machine.Settled()
      ensures old(machine.Calm()) ==> machine.Calm() && machine.blind == old(machine.blind)
      ensures old(Safe() && machine.Calm()) ==>
        r.Value? && forall k | 0 <= k < |targets| && moved[k] :: OnlyQuarantined(machine.fs, targets[k])
      ensures old(machine.Calm()) && SettledThrough(old(machine.fs), targets, |targets|).Some? ==>
        r.Value? && SettledThrough(old(machine.fs), targets,
          |targets|) == Some(machine.fs) && forall k | 0 <= k < |targets| :: !moved[k]
      ensures machine.blind >= old(machine.blind)
      ensures r.Stop? && r.report.Refused? ==> machine.blind > old(machine.blind)
      ensures old(machine.Sure(5 * |targets|) && AllQuarantined(machine.fs, targets)) ==>
        r.Value? && machine.fs == old(machine.fs) && machine.clock == old(machine.clock) + 5 * |targets|
        && forall k | 0 <= k < |targets| :: moved[k]
    {
      ghost var start := Now();
      NamesStart(start);
      StartFacts();
      hide SettledThrough, AtHome, OnlyQuarantined, Reachable, Forward, Waits, Preserves, Bound, Tame, Original,
        Quarantined, Machine.Calm;
      for i := 0 to |targets|
        invariant machine.fs in machine.images && Handled(start, i) && Preserves(start.fs, machine.fs)
        invariant old(Safe()) ==> Safe()
        invariant old(machine.Calm()) ==> machine.Calm() && machine.blind == old(machine.blind)
        invariant machine.blind >= old(machine.blind)
        invariant old(machine.Sure(5 * |targets|)) && AllQuarantined(start.fs, targets) ==>
          machine.clock == old(machine.clock) + 5 * i
      {
        NamesTurn(start, i);
        var _ :- ReconcileNext(i, start);
      }
      NamesDone(start);
      r := Value(true);
    }

    lemma StartFacts()
      ensures Safe() ==> DistinctFiles(targets) && Recoverable(machine.fs, targets)
      ensures |targets| > 0 && AllQuarantined(machine.fs, targets) ==> OnlyQuarantined(machine.fs, LastTarget())
    {
      if |targets| > 0 && AllQuarantined(machine.fs, targets) { assert Quarantined(machine.fs, LastTarget()); }
    }

    lemma NamesStart(fs: Medium)
      ensures Forward(fs, targets, 0) == fs && Preserves(fs.fs, fs.fs)
    {
    }

    /** The states in which the first loop meets its next target. */
    lemma NamesTurn(start: Medium, i: nat)
      requires i < |targets|
      ensures AllQuarantined(start.fs, targets) ==> OnlyQuarantined(Forward(start, targets, i).fs, targets[i])
      ensures SettledThrough(start.fs, targets, |targets|).Some? ==>
        Reachable(Forward(start, targets, i).fs, targets[i])
    {
      if AllQuarantined(start.fs, targets) {
        ForwardQuarantined(start, targets, i);
        assert Quarantined(start.fs, targets[i]);
      }
      if SettledThrough(start.fs, targets, |targets|).Some? {
        SettledStep(start.fs, targets, i, |targets|);
        ForwardThrough(start, targets, i);
      }
    }

    /** What the value of the first loop means. */
    lemma NamesDone(start: Medium)
      requires Handled(start, |targets|)
      ensures Tame(start.fs, targets) ==>
        Tame(machine.fs, targets) && forall k | 0 <= k < |targets| && !moved[k] :: Original(machine.fs, targets[k])
      ensures start.images == {start.fs} ==> machine.Settled()
      ensures DistinctFiles(targets) && Recoverable(start.fs, targets) ==>
        forall k | 0 <= k < |targets| && moved[k] :: OnlyQuarantined(machine.fs, targets[k])
      ensures SettledThrough(start.fs, targets, |targets|).Some? ==>
        SettledThrough(start.fs, targets, |targets|) == Some(machine.fs) && forall k | 0 <= k < |targets| :: !moved[k]
      ensures AllQuarantined(start.fs, targets) ==> machine.fs == start.fs && forall k | 0 <= k < |targets| :: moved[k]
    {
      hide SettledThrough, AtHome, OnlyQuarantined, Reachable, Forward, Backward, Waits, Tame, Original, Quarantined,
        DistinctFiles;
      if Tame(start.fs, targets) { ForwardTame(start, targets, |targets|); }
      if start.images == {start.fs} { ForwardSettles(start, targets, |targets|); }
      if DistinctFiles(targets) && Recoverable(start.fs, targets) { StillWaiting(start); }
      if SettledThrough(start.fs, targets, |targets|).Some? { ForwardThrough(start, targets, |targets|); }
      if AllQuarantined(start.fs, targets) { ForwardQuarantined(start, targets, |targets|); }
    }

    lemma StillWaiting(start: Medium)
      requires Handled(start, |targets|) && DistinctFiles(targets) && Recoverable(start.fs, targets)
      ensures forall k | 0 <= k < |targets| && moved[k] :: OnlyQuarantined(machine.fs, targets[k])
    {
      hide OnlyQuarantined, Forward, Waits, Recoverable, DistinctFiles;
      forall k | 0 <= k < |targets| && moved[k] ensures OnlyQuarantined(machine.fs, targets[k]) {
        WaitsIff(start, targets, k);
        ForwardUntouched(start, targets, |targets|, k);
        UntouchedMeans(start.fs, machine.fs, targets[k]);
      }
    }

    /** One iteration of the first loop. */
    method ReconcileNext(i: nat, ghost start: Medium) returns (r: Try<bool>)
      requires machine.fs in machine.images && i < |targets| && Handled(start, i) && Preserves(start.fs, machine.fs)
      modifies this`moved, machine
      ensures machine.fs in machine.images && |moved| == |targets|
      ensures r.Value? ==> Handled(start, i + 1)
      ensures !(r.Stop? && r.report.Crashed?) ==> Preserves(start.fs, machine.fs)
      ensures old(Safe()) ==> Safe()
      ensures old(machine.Calm()) ==>
        machine.Calm() && machine.blind == old(machine.blind)
          && (old(Safe()) || Reachable(old(machine.fs), targets[i]) ==> r.Value?)
      ensures machine.blind >= old(machine.blind)
      ensures r.Stop? && r.report.Refused? ==> machine.blind > old(machine.blind)
      ensures old(machine.Sure(5) && OnlyQuarantined(machine.fs, targets[i])) ==>
        r.Value? && machine.clock == old(machine.clock) + 5
    {
      hide Preserves, AtHome, OnlyQuarantined, Reachable, Settle, SettledImages, Machine.Calm;
      ghost var fs := machine.fs;
      var handled := ReconcileOne(i);
      if handled.Stop? && handled.report.Crashed? { return Stop(Crashed); }
      SettleStagePreserves(fs, machine.fs, targets[i]);
      PreservesTrans(start.fs, fs, machine.fs);
      if handled.Stop? { return Stop(handled.report); }
      moved := moved[i := handled.value];
      r := Value(true);
    }

    /** The second loop reached `n`. */
    ghost predicate RestoredFrom(start: Medium, n: nat) reads this, machine {
      && n <= |targets| && |moved| == |targets| && Backward(start, targets, n) == Some(Now())
      && forall k | 0 <= k < |targets| :: moved[k] <==> Waits(start, targets, k)
    }

    /** The second loop of reconcile_rollback: restore what is still in quarantine, last one first. */
    method RestoreMoved(ghost start: Medium) returns (r: Try<State>)
      requires machine.fs in machine.images && Handled(start, |targets|) && Preserves(start.fs, machine.fs)
      modifies machine
      ensures r.Value? ==> r.value == ORIGINAL_EXACT_RECONCILED && Backward(start, targets, 0) == Some(Now())
      ensures r.Value? && Tame(start.fs, targets) ==> AllOriginal(machine.fs, targets)
      ensures !(r.Stop? && r.report.Crashed?) ==> Preserves(start.fs, machine.fs)
      ensures old(Safe()) ==> Safe()
      ensures old(machine.Settled()) && r.Value? ==> machine.Settled()
      ensures old(machine.Calm()) && DistinctFiles(targets) && Recoverable(start.fs, targets) ==> r.Value?
      ensures (forall k | 0 <= k < |targets| :: !moved[k]) ==> r.Value? && machine.fs == old(machine.fs)
      ensures old(machine.Calm()) ==> machine.blind == old(machine.blind)
      ensures machine.blind >= old(machine.blind)
      ensures r.Stop? && r.report.Refused? ==> machine.blind > old(machine.blind)
      ensures
        && |targets| > 0 && moved[|targets| - 1]
        && old(machine.BlindIn(11) && OnlyQuarantined(machine.fs, LastTarget())) ==>
        r == Stop(Die("file read failed")) && machine.fs == Restored(old(machine.fs), LastTarget())
    {
      BackwardStart(start);
      hide Preserves, OnlyQuarantined, Waits, Forward, Backward, Bound, Tame, Original, Restored, DistinctFiles,
        Recoverable, Machine.Calm;
      var i := |targets|;
      while i > 0
        invariant 0 <= i <= |targets| && machine.fs in machine.images && RestoredFrom(start, i)
          && Preserves(start.fs, machine.fs)
        invariant old(Safe()) ==> Safe()
        invariant old(machine.Settled()) ==> machine.Settled()
        invariant old(machine.Calm()) ==> machine.Calm() && machine.blind == old(machine.blind)
        invariant (forall k | 0 <= k < |targets| :: !moved[k]) ==> machine.fs == old(machine.fs)
        invariant machine.blind >= old(machine.blind)
          && (i == |targets| ==> machine.fs == old(machine.fs) && machine.clock == old(machine.clock))
        invariant i < |targets| && moved[|targets| - 1] ==>
          !(old(machine.BlindIn(11)) && OnlyQuarantined(old(machine.fs), LastTarget()))
      {
        i := i - 1;
        if moved[i] {
          var _ :- RestoreMovedOne(i, start);
        } else {
          BackwardSkips(start, i);
        }
      }
      if Tame(start.fs, targets) { BackwardTame(start, targets, 0); }
      r := Value(ORIGINAL_EXACT_RECONCILED);
    }

    lemma BackwardStart(start: Medium)
      ensures Backward(start, targets, |targets|) == Some(Forward(start, targets, |targets|))
    {
    }

    lemma BackwardSkips(start: Medium, i: nat)
      requires i < |targets| && Backward(start, targets, i + 1).Some? && !Waits(start, targets, i)
      ensures Backward(start, targets, i) == Backward(start, targets, i + 1)
    {
    }

    method RestoreMovedOne(i: nat, ghost start: Medium) returns (r: Try<bool>)
      requires machine.fs in machine.images && i < |targets| && RestoredFrom(start, i + 1) && moved[i]
      requires Preserves(start.fs, machine.fs)
      modifies machine
      ensures machine.fs in machine.images
      ensures r.Value? ==> RestoredFrom(start, i)
      ensures !(r.Stop? && r.report.Crashed?) ==> Preserves(start.fs, machine.fs)
      ensures old(Safe()) ==> Safe()
      ensures old(machine.Settled()) && r.Value? ==> machine.Settled()
      ensures old(machine.Calm()) ==>
        machine.Calm() && machine.blind == old(machine.blind)
          && (DistinctFiles(targets) && Recoverable(start.fs, targets) ==> r.Value?)
      ensures machine.blind >= old(machine.blind)
      ensures r.Stop? && r.report.Refused? ==> machine.blind > old(machine.blind)
      ensures old(machine.BlindIn(11) && OnlyQuarantined(machine.fs, targets[i])) ==>
        r == Stop(Die("file read failed")) && machine.fs == Restored(old(machine.fs), targets[i])
    {
      hide Preserves, OnlyQuarantined, Waits, Forward, Bound, Restored, RestoredImages, DistinctFiles, Recoverable,
        Machine.Calm;
      ghost var fs := machine.fs;
      if DistinctFiles(targets) && Recoverable(start.fs, targets) {
        BackwardFinds(start, targets, i + 1);
        WaitsIff(start, targets, i);
      }
      var restored := RestoreOne(i);
      if restored.Stop? && restored.report.Crashed? { return Stop(Crashed); }
      StagePreserves(fs, machine.fs, targets[i]);
      PreservesTrans(start.fs, fs, machine.fs);
      if restored.Stop? { return Stop(restored.report); }
      if !restored.value { return Stop(Partial("reconciliation rollback diverged")); }
      r := Value(true);
    }

    // ----- Apply -----

    predicate LiveParentBound(t: Target) {
      && t.dir in liveDirs && liveDirs[t.dir] == t.parent
      && t.parent.dev == t.file.dev && t.file.dev == rootDevice
    }

    /** What prepare_live admits. */
    ghost predicate LiveReady(fs: FS) {
      && (forall i | 0 <= i < |targets| ::
            LiveParentBound(targets[i]) && ExactAt(fs, targets[i].Live(), targets[i], targets[i].mode))
      && DistinctFiles(targets)
    }

    ghost predicate QuarantineFree(fs: FS) {
      forall i | 0 <= i < |targets| :: targets[i].Quar() !in fs.names
    }

    /** prepare_live: bind every parent, open every object exactly, refuse a repeated object. */
    method PrepareLive() returns (r: Try<bool>)
      requires machine.fs in machine.images && held == []
      modifies this`held, machine
      ensures Kept(r, old(machine.fs), old(machine.images), machine.fs, machine.images)
      ensures r.Value? ==> LiveReady(machine.fs) && |held| == |targets| && forall i | 0 <= i < |targets| ::
        held[i] == targets[i].file
      ensures old(machine.Calm()) ==> machine.Calm() && (r.Value? <==> LiveReady(old(machine.fs)))
      ensures r.Stop? ==> r.report.Ended() || Dies(r.report)
    {
      hide Machine.Calm;
      for i := 0 to |targets|
        invariant machine.fs == old(machine.fs) && machine.images == old(machine.images)
        invariant old(machine.Calm()) ==> machine.Calm()
        invariant |held| == i && forall k | 0 <= k < i :: held[k] == targets[k].file
        invariant forall k | 0 <= k < i ::
          LiveParentBound(targets[k]) && ExactAt(machine.fs, targets[k].Live(), targets[k], targets[k].mode)
        invariant forall j, k | 0 <= j < k < i :: targets[j].file != targets[k].file
      {
        var _ :- OpenLive(targets[i]);
        for j := 0 to i
          invariant forall k | 0 <= k < j :: targets[k].file != targets[i].file
        {
          if targets[i].file == targets[j].file { return Stop(Die("duplicate physical target")); }
        }
        held := held + [targets[i].file];
      }
      r := Value(true);
    }

    method OpenLive(t: Target) returns (r: Try<bool>)
      requires machine.fs in machine.images
      modifies machine
      ensures Kept(r, old(machine.fs), old(machine.images), machine.fs, machine.images)
      ensures r.Value? ==> LiveParentBound(t) && ExactAt(machine.fs, t.Live(), t, t.mode)
      ensures old(machine.Calm()) ==>
        machine.Calm() && (r.Value? <==> LiveParentBound(t) && ExactAt(old(machine.fs), t.Live(), t, t.mode))
      ensures r.Stop? ==> r.report.Ended() || Dies(r.report)
    {
      var found :- machine.Look();
      if !found || !LiveParentBound(t) { return Stop(Die("target parent identity or filesystem drift")); }
      var exact :- OpenExact(t.Live(), t, t.mode);
      if !exact { return Stop(Die("target exact prestate drift")); }
      r := Value(true);
    }

    /** prepare_quarantine: the parent chain exists on the root's device, and nothing is in the way. */
    method PrepareQuarantine() returns (r: Try<bool>)
      requires machine.fs in machine.images
      modifies this`quarantineDirs, machine
      ensures Kept(r, old(machine.fs), old(machine.images), machine.fs, machine.images)
      ensures r.Value? ==> QuarantineFree(machine.fs)
      ensures r.Value? ==> forall i | 0 <= i < |targets| ::
        targets[i].dir in quarantineDirs && quarantineDirs[targets[i].dir] == rootDevice
      ensures old(machine.Calm()) ==> machine.Calm() && (r.Value? <==> QuarantineFree(old(machine.fs)))
      ensures r.Stop? ==> r.report.Ended() || Dies(r.report)
    {
      hide Machine.Calm;
      for i := 0 to |targets|
        invariant machine.fs == old(machine.fs) && machine.images == old(machine.images)
        invariant old(machine.Calm()) ==> machine.Calm()
        invariant forall k | 0 <= k < i :: targets[k].Quar() !in machine.fs.names
        invariant forall k | 0 <= k < i ::
          targets[k].dir in quarantineDirs && quarantineDirs[targets[k].dir] == rootDevice
      {
        var _ :- PrepareParent(targets[i]);
      }
      r := Value(true);
    }

    method PrepareParent(t: Target) returns (r: Try<bool>)
      requires machine.fs in machine.images
      modifies this`quarantineDirs, machine
      ensures Kept(r, old(machine.fs), old(machine.images), machine.fs, machine.images)
      ensures r.Value? ==> t.Quar() !in machine.fs.names && quarantineDirs == old(quarantineDirs)[t.dir := rootDevice]
      ensures old(machine.Calm()) ==> machine.Calm() && (r.Value? <==> t.Quar() !in old(machine.fs).names)
      ensures r.Stop? ==> r.report.Ended() || Dies(r.report)
    {
      var made :- machine.Look();
      if !made { return Stop(Die("quarantine directory create failed")); }
      quarantineDirs := quarantineDirs[t.dir := rootDevice];
      var free :- AbsentAt(t.Quar());
      if !free { return Stop(Die("quarantine destination collision")); }
      r := Value(true);
    }

    /** One durable step outside both trees: it completes or the process ends through `die`. */
    method Require(reason: string) returns (r: Try<bool>)
      requires machine.fs in machine.images
      modifies machine
      ensures Kept(r, old(machine.fs), old(machine.images), machine.fs, machine.images)
      ensures old(machine.Calm()) ==> machine.Calm() && r.Value?
      ensures r.Stop? ==> r.report.Ended() || Dies(r.report)
    {
      var ok :- machine.Look();
      if !ok { return Stop(Die(reason)); }
      r := Value(true);
    }

    /** Append one journal row and make it durable. */
    method Journal(row: Row) returns (r: Try<bool>)
      requires machine.fs in machine.images
      modifies this`journal, machine
      ensures Kept(r, old(machine.fs), old(machine.images), machine.fs, machine.images)
      ensures r.Value? ==> journal == old(journal) + [row]
      ensures journal == old(journal) || journal == old(journal) + [row]
      ensures old(machine.Calm()) ==> machine.Calm() && r.Value?
      ensures r.Stop? ==> r.report.Ended() || Dies(r.report)
    {
      var _ :- Require("durable write failed");
      journal := journal + [row];
      r := Require("journal fsync failed");
    }

    /** Everything an admitted transaction knows before its first move. */
    ghost predicate Prepared(fs: FS) reads this {
      && LiveReady(fs) && QuarantineFree(fs) && ParentsBound()
      && |held| == |targets| && forall i | 0 <= i < |targets| :: held[i] == targets[i].file
    }

    method Prepare() returns (r: Try<bool>)
      requires machine.fs in machine.images && held == []
      modifies this`held, this`quarantineDirs, machine
      ensures Kept(r, old(machine.fs), old(machine.images), machine.fs, machine.images)
      ensures r.Value? ==> Prepared(machine.fs)
      ensures old(machine.Calm()) ==>
        machine.Calm() && (r.Value? <==> LiveReady(old(machine.fs)) && QuarantineFree(old(machine.fs)))
      ensures r.Stop? ==> r.report.Ended() || Dies(r.report)
    {
      var _ :- PrepareLive();
      r := PrepareQuarantine();
    }

    /** Both manifests are written and synced into the quarantine root, and the journal is created. */
    method PersistManifests() returns (r: Try<bool>)
      requires machine.fs in machine.images
      modifies machine
      ensures Kept(r, old(machine.fs), old(machine.images), machine.fs, machine.images)
      ensures old(machine.Calm()) ==> machine.Calm() && r.Value?
      ensures r.Stop? ==> r.report.Ended() || Dies(r.report)
    {
      var _ :- Require("bound transaction manifest create failed");
      var _ :- Require("bound transaction manifest create failed");
      var _ :- Require("transaction manifest directory fsync failed");
      var _ :- Require("journal create failed");
      r := Require("journal directory fsync failed");
    }

    /** Everything apply does before its first move. */
    method Begin() returns (r: Try<bool>)
      requires machine.Settled() && Fresh()
      modifies this`held, this`quarantineDirs, this`journal, machine
      ensures machine.fs == old(machine.fs) && machine.Settled()
      ensures r.Value? ==> Prepared(machine.fs) && journal == [BEGIN(|targets|)]
      ensures journal != [] ==> Prepared(machine.fs)
      ensures old(machine.Calm()) ==>
        machine.Calm() && (r.Value? <==> LiveReady(machine.fs) && QuarantineFree(machine.fs))
      ensures r.Stop? ==> r.report.Ended() || r.report.Refused?
    {
      var _ :- Prepare();
      var _ :- PersistManifests();
      r := Journal(BEGIN(|targets|));
    }

    // ----- Apply: one forward move -----

    /** The held descriptor still is the named object, and its bytes are unchanged. */
    method CheckHeld(i: nat) returns (r: Try<bool>)
      requires machine.fs in machine.images && i < |targets| && i < |held| && held[i] in machine.fs.inodes
      modifies machine
      ensures Kept(r, old(machine.fs), old(machine.images), machine.fs, machine.images)
      ensures old(machine.Calm()) ==> machine.Calm()
      ensures old(machine.Calm() && Original(machine.fs, targets[i])) && held[i] == targets[i].file ==> r == Value(true)
      ensures r.Stop? ==> r.report.Ended() || Dies(r.report)
    {
      var statted :- machine.Look();
      if !statted { return Value(false); }
      statted :- machine.Look();
      if !statted || !At(machine.fs, targets[i].Live(), targets[i].(file := held[i])) { return Value(false); }
      var _ :- ReadAll(held[i]);
      r := Value(machine.fs.inodes[held[i]].sha == targets[i].sha);
    }

    /** How a forward move that ends in compensation left its target. */
    ghost predicate HalfMoved(fs0: FS, i: nat) reads this, machine requires i < |targets| {
      && OnlyQuarantined(machine.fs, targets[i]) && Restored(machine.fs, targets[i]) == fs0
      && PendingOnly(machine.fs, machine.images, targets[i])
    }

    /** The body of apply's loop for one target; Value(false) is its jump to compensation. */
    method QuarantineOne(i: nat) returns (r: Try<bool>)
      requires i < |targets| && |moved| == |targets| && i < |held| && held[i] == targets[i].file
      requires machine.Settled() && Original(machine.fs, targets[i]) && !moved[i]
      modifies this`moved, this`mutationStarted, machine
      ensures machine.fs in machine.images
      ensures r.Value? && r.value ==>
        && machine.fs == Enacted(old(machine.fs), targets[i]) && machine.Settled()
        && moved == old(moved)[i := true] && mutationStarted
      ensures r.Value? && !r.value ==>
        || (machine.fs == old(machine.fs) && machine.Settled() && moved == old(moved)
          && mutationStarted == old(mutationStarted))
        || (HalfMoved(old(machine.fs), i) && moved == old(moved)[i := true] && mutationStarted)
      ensures r.Stop? && r.report.Refused? ==>
        machine.fs == old(machine.fs) && machine.Settled() && !old(mutationStarted)
      ensures old(Safe()) ==> Safe()
      ensures old(machine.Calm()) ==> machine.Calm() && r == Value(true)
    {
      hide Machine.Calm, Machine.Sure, Machine.BlindIn;
      var t := targets[i];
      var same :- CheckHeld(i);
      if !same { return Value(false); }
      RestoreUndoesMove(machine.fs, t);
      var renamed :- RenameTarget(i, QUARANTINE);
      if !renamed { return Value(false); }
      moved := moved[i := true];
      mutationStarted := true;
      PendingRename(old(machine.fs), old(machine.images), t, t.Live(), t.Quar());
      r := SyncMove(i, old(machine.fs));
    }

    /** Both parents made durable, destination first; then the seal. */
    method SyncMove(i: nat, ghost fs0: FS) returns (r: Try<bool>)
      requires i < |targets| && Original(fs0, targets[i]) && mutationStarted && HalfMoved(fs0, i)
      requires machine.fs == Moved(fs0, targets[i].Live(), targets[i].Quar())
      requires machine.images == AfterRename({fs0}, targets[i].Live(), targets[i].Quar())
      modifies machine
      ensures machine.fs in machine.images
      ensures r.Value? && r.value ==> machine.fs == Enacted(fs0, targets[i]) && machine.Settled()
      ensures r.Value? && !r.value ==> HalfMoved(fs0, i)
      ensures r.Stop? ==> !r.report.Refused?
      ensures old(Safe()) ==> Safe()
      ensures old(machine.Calm()) ==> machine.Calm() && r == Value(true)
    {
      var synced :- SyncParent(i, QUARANTINE);
      if !synced { return Value(false); }
      synced :- SyncParent(i, LIVE);
      if !synced { return Value(false); }
      MoveSettles(fs0, targets[i], machine.images);
      r := SealOne(i, fs0);
    }

    /** The second half of the move: mode 0400, synced, and verified on both sides. */
    method SealOne(i: nat, ghost fs0: FS) returns (r: Try<bool>)
      requires i < |targets| && Original(fs0, targets[i]) && mutationStarted
      requires machine.fs == Moved(fs0, targets[i].Live(), targets[i].Quar()) && machine.Settled()
      modifies machine
      ensures machine.fs in machine.images
      ensures r.Value? && r.value ==> machine.fs == Enacted(fs0, targets[i]) && machine.Settled()
      ensures r.Value? && !r.value ==> HalfMoved(fs0, i)
      ensures r.Stop? ==> !r.report.Refused?
      ensures old(Safe()) ==> Safe()
      ensures old(machine.Calm()) ==> machine.Calm() && r == Value(true)
    {
      var t := targets[i];
      RestoreUndoesMove(fs0, t);
      var found :- machine.Look();
      if !found { return Value(false); }
      PendingChmod(machine.fs, machine.images, t, QUARANTINE_MODE);
      ChmodSettles(machine.fs, t, QUARANTINE_MODE);
      var sealed :- ChmodTarget(i, QUARANTINE_MODE);
      if !sealed { return Value(false); }
      sealed :- SyncTarget(i);
      if !sealed { return Value(false); }
      r := VerifyQuarantined(i);
    }

    method VerifyQuarantined(i: nat) returns (r: Try<bool>)
      requires i < |targets| && machine.fs in machine.images
      modifies machine
      ensures Kept(r, old(machine.fs), old(machine.images), machine.fs, machine.images)
      ensures old(Safe()) ==> Safe()
      ensures r.Value? && r.value ==> Quarantined(machine.fs, targets[i])
      ensures old(machine.Calm()) ==> machine.Calm()
      ensures old(machine.Calm() && Quarantined(machine.fs, targets[i])) ==> r == Value(true)
      ensures r.Stop? ==> r.report.Ended() || Dies(r.report)
    {
      var t := targets[i];
      var exact :- OpenExact(t.Quar(), t, QUARANTINE_MODE);
      if !exact { return Value(false); }
      r := AbsentAt(t.Live());
    }

    // ----- Apply: the whole transaction -----

    ghost predicate MovedBelow(n: nat) reads this {
      |moved| == |targets| && forall k | 0 <= k < |targets| :: moved[k] <==> k < n
    }

    /** The state in which apply turns to compensation: `done` targets fully moved, and possibly the
        next one moved but not sealed. */
    ghost predicate Stranded(fs0: FS, done: nat) reads this, machine
      requires done <= |targets|
    {
      || (MovedBelow(done) && machine.fs == EnactedUpTo(fs0, targets, done) && machine.Settled())
      || (done < |targets| && MovedBelow(done + 1) && HalfMoved(EnactedUpTo(fs0, targets, done), done))
    }

    /** The compensate label: undo every move, last one first, then refuse. */
    method Compensate(ghost fs0: FS, ghost done: nat) returns (r: Try<State>)
      requires done <= |targets| && AllOriginal(fs0, targets) && DistinctFiles(targets)
      requires Stranded(fs0, done) && machine.fs in machine.images
      requires MovedBelow(0) || mutationStarted
      modifies this`mutationStarted, this`journal, machine
      ensures r.Stop?
      ensures r.report.Refused? ==> machine.fs == fs0 && machine.Settled()
      ensures old(Safe()) ==> Safe()
      ensures old(journal) != [] ==> journal != []
    {
      hide Machine.Calm, Machine.Sure, Machine.BlindIn;
      var j := |targets|;
      while j > 0
        invariant 0 <= j <= |targets| && machine.fs in machine.images
        invariant journal == old(journal) && mutationStarted == old(mutationStarted)
        invariant old(Safe()) ==> Safe()
        invariant if j > done then Stranded(fs0, done) else CompensatedTo(fs0, j)
      {
        j := j - 1;
        if moved[j] { var _ :- CompensateOne(j, fs0, done); }
      }
      mutationStarted := false;
      var _ :- Journal(COMPENSATED(|targets|));
      r := Stop(Die("mutation failed; exact compensation verified"));
    }

    method CompensateOne(j: nat, ghost fs0: FS, ghost done: nat) returns (r: Try<bool>)
      requires j < |targets| && done <= |targets| && AllOriginal(fs0, targets) && DistinctFiles(targets)
      requires machine.fs in machine.images && |moved| == |targets| && moved[j] && mutationStarted
      requires if j >= done then Stranded(fs0, done) else CompensatedTo(fs0, j + 1)
      modifies machine
      ensures machine.fs in machine.images
      ensures r.Value? ==> CompensatedTo(fs0, j) && j <= done
      ensures r.Stop? ==> !r.report.Refused?
      ensures old(Safe()) ==> Safe()
    {
      if j < done {
        EnactedStep(fs0, targets, j);
        RestoreUndoesMove(EnactedUpTo(fs0, targets, j), targets[j]);
      }
      var restored :- RestoreOne(j);
      if !restored { return Stop(Partial("automatic compensation failed")); }
      r := Value(true);
    }

    ghost predicate CompensatedTo(fs0: FS, j: nat) reads machine requires j <= |targets| {
      machine.fs == EnactedUpTo(fs0, targets, j) && machine.Settled()
    }

    ghost function JournalUpTo(n: nat): seq<Row> {
      [BEGIN(|targets|)] + seq(n, (i: nat) => MOVED(i))
    }

    /** apply_transaction. */
    method ApplyTransaction() returns (r: Try<State>)
      requires machine.Settled() && Fresh()
      modifies this, machine
      // the success line: everything moved, durable, journalled
      ensures r.Value? ==> r.value == QUARANTINED_EXACT
      ensures r.Value? ==> AllQuarantined(machine.fs, targets) && machine.Settled()
      ensures r.Value? ==> machine.fs == EnactedUpTo(old(machine.fs), targets, |targets|)
      ensures r.Value? ==> journal == JournalUpTo(|targets|) + [COMMITTED(|targets|)]
      // exit status 20: nothing moved, durably
      ensures r.Stop? && r.report.Refused? ==> machine.fs == old(machine.fs) && machine.Settled()
      // before BEGIN nothing moved; from BEGIN on every outcome can be reconciled
      ensures journal == [] ==> machine.fs == old(machine.fs) && machine.Settled() && !(r.Stop? && r.report.Partial?)
      ensures journal != [] ==> Safe() && ParentsBound() && AllOriginal(old(machine.fs), targets)
      // admitted exactly when the bound state is there
      ensures old(machine.Calm()) ==>
        machine.Calm() && (r.Value? <==> LiveReady(old(machine.fs)) && QuarantineFree(old(machine.fs)))
    {
      hide Machine.Calm, Machine.Sure, Machine.BlindIn;
      ghost var fs0 := machine.fs;
      var _ :- Begin();
      OriginalIsBound(fs0, targets);
      var _ :- MoveAll(fs0);
      EnactedUpToState(fs0, targets, |targets|);
      r := Commit();
    }

    method Commit() returns (r: Try<State>)
      requires machine.fs in machine.images
      modifies this`mutationStarted, this`journal, machine
      ensures Kept(r, old(machine.fs), old(machine.images), machine.fs, machine.images)
      ensures old(Safe()) ==> Safe()
      ensures r.Value? ==> r.value == QUARANTINED_EXACT && journal == old(journal) + [COMMITTED(|targets|)]
      ensures old(journal) != [] ==> journal != []
      ensures r.Stop? && r.report.Refused? ==> !old(mutationStarted)
      ensures old(machine.Calm()) ==> machine.Calm() && r.Value?
    {
      var _ :- Journal(COMMITTED(|targets|));
      var statted :- machine.Look();
      if !statted { return Stop(Partial("quarantine root receipt unavailable")); }
      mutationStarted := false;
      r := Value(QUARANTINED_EXACT);
    }

    /** Exactly the first i targets are moved, sealed, durable and journalled. */
    ghost predicate Progress(fs0: FS, i: nat) reads this, machine requires i <= |targets| {
      && MovedBelow(i) && (mutationStarted <==> 0 < i)
      && machine.fs == EnactedUpTo(fs0, targets, i) && machine.Settled() && journal == JournalUpTo(i)
    }

    /** The loop of apply_transaction. */
    method MoveAll(ghost fs0: FS) returns (r: Try<bool>)
      requires Progress(fs0, 0) && Prepared(fs0) && Safe() && AllOriginal(fs0, targets)
      modifies this`moved, this`mutationStarted, this`journal, machine
      ensures r.Value? ==> Progress(fs0, |targets|)
      ensures r.Stop? && r.report.Refused? ==> machine.fs == fs0 && machine.Settled()
      ensures Safe() && journal != []
      ensures old(machine.Calm()) ==> machine.Calm() && r.Value?
    {
      hide Machine.Calm, Machine.Sure, Machine.BlindIn;
      var i := 0;
      while i < |targets|
        invariant 0 <= i <= |targets| && Progress(fs0, i) && Safe()
        invariant old(machine.Calm()) ==> machine.Calm()
      {
        var _ :- MoveNext(i, fs0);
        i := i + 1;
      }
      r := Value(true);
    }

    method MoveNext(i: nat, ghost fs0: FS) returns (r: Try<bool>)
      requires i < |targets| && Progress(fs0, i) && Safe() && AllOriginal(fs0, targets)
      requires |held| == |targets| && held[i] == targets[i].file
      modifies this`moved, this`mutationStarted, this`journal, machine
      ensures r.Value? ==> Progress(fs0, i + 1)
      ensures r.Stop? && r.report.Refused? ==> machine.fs == fs0 && machine.Settled()
      ensures Safe() && journal != []
      ensures old(machine.Calm()) ==> machine.Calm() && r.Value?
    {
      hide Machine.Calm, Machine.Sure, Machine.BlindIn;
      EnactedStep(fs0, targets, i);
      var sealed :- QuarantineOne(i);
      if !sealed {
        assert Stranded(fs0, i);
        var compensated := Compensate(fs0, i);
        return Stop(compensated.report);
      }
      r := Journal(MOVED(i));
      assert r.Value? ==> journal == JournalUpTo(i + 1);
    }
  }
}
