/** Targets of one quarantine operation, the states a bound file object can be in, and what each
    system call of the transaction does to them. */
module Targets {
  import opened Disk

  const QUARANTINE_MODE: nat := 256  // 0400

  /** One manifest row, already located: the live parent and the quarantine parent have the same
      relative components, and both sides use the same final name. */
  datatype Target = Target(dir: seq<string>, name: string, sha: string, size: nat, mode: nat,
                           uid: nat, gid: nat, parent: FileId, file: FileId) {
    function Live(): Slot { Slot(LIVE, dir, name) }
    function Quar(): Slot { Slot(QUARANTINE, dir, name) }
  }

  predicate ExactInode(n: Inode, t: Target, mode: nat) {
    n == Inode(Regular, t.sha, t.size, mode, t.uid, t.gid, 1)
  }

  /** The object at a name is the bound one, with one link and the given mode. */
  predicate ExactAt(fs: FS, s: Slot, t: Target, mode: nat) {
    s in fs.names && fs.names[s] == t.file && t.file in fs.inodes && ExactInode(fs.inodes[t.file], t, mode)
  }

  predicate Original(fs: FS, t: Target) {
    ExactAt(fs, t.Live(), t, t.mode) && t.Quar() !in fs.names
  }

  predicate Quarantined(fs: FS, t: Target) {
    ExactAt(fs, t.Quar(), t, QUARANTINE_MODE) && t.Live() !in fs.names
  }

  ghost predicate AllOriginal(fs: FS, ts: seq<Target>) {
    forall i | 0 <= i < |ts| :: Original(fs, ts[i])
  }

  ghost predicate AllQuarantined(fs: FS, ts: seq<Target>) {
    forall i | 0 <= i < |ts| :: Quarantined(fs, ts[i])
  }

  ghost predicate DistinctFiles(ts: seq<Target>) {
    forall i, j | 0 <= i < j < |ts| :: ts[i].file != ts[j].file
  }

  // ----- The states a transaction, or a crash inside one, can leave an object in -----

  /** Bound bytes, owner and size; either of the two modes the transaction sets; `links` names. */
  predicate Intact(fs: FS, t: Target, links: nat) {
    && t.file in fs.inodes
    && var n := fs.inodes[t.file];
       && n == Inode(Regular, t.sha, t.size, n.mode, t.uid, t.gid, links)
       && (n.mode == QUARANTINE_MODE || n.mode == t.mode)
  }

  predicate At(fs: FS, s: Slot, t: Target) { s in fs.names && fs.names[s] == t.file }

  predicate OnlyLive(fs: FS, t: Target) {
    Intact(fs, t, 1) && At(fs, t.Live(), t) && t.Quar() !in fs.names
  }

  predicate OnlyQuarantined(fs: FS, t: Target) {
    Intact(fs, t, 1) && At(fs, t.Quar(), t) && t.Live() !in fs.names
  }

  predicate OnBoth(fs: FS, t: Target) {
    Intact(fs, t, 2) && At(fs, t.Live(), t) && At(fs, t.Quar(), t)
  }

  predicate Reachable(fs: FS, t: Target) {
    OnlyLive(fs, t) || OnlyQuarantined(fs, t) || OnBoth(fs, t)
  }

  ghost predicate Recoverable(fs: FS, ts: seq<Target>) {
    forall i | 0 <= i < |ts| :: Reachable(fs, ts[i])
  }

  // ----- Framing: two states that differ at most in one target's names and inode -----

  predicate SameInode(a: FS, b: FS, id: FileId) {
    (id in a.inodes <==> id in b.inodes) && (id in a.inodes && id in b.inodes ==> a.inodes[id] == b.inodes[id])
  }

  ghost predicate SameBut(a: FS, b: FS, t: Target) {
    && (forall s :: s != t.Live() && s != t.Quar() ==> SameEntry(a, b, s))
    && (forall id :: id != t.file ==> SameInode(a, b, id))
  }

  lemma SameButTrans(a: FS, b: FS, c: FS, t: Target)
    requires SameBut(a, b, t) && SameBut(b, c, t)
    ensures SameBut(a, c, t)
  {
    forall s | s != t.Live() && s != t.Quar() ensures SameEntry(a, c, s) {
      assert SameEntry(a, b, s) && SameEntry(b, c, s);
    }
    forall id | id != t.file ensures SameInode(a, c, id) {
      assert SameInode(a, b, id) && SameInode(b, c, id);
    }
  }

  lemma SameButSym(a: FS, b: FS, t: Target)
    requires SameBut(a, b, t)
    ensures SameBut(b, a, t)
  {
    forall s | s != t.Live() && s != t.Quar() ensures SameEntry(b, a, s) { assert SameEntry(a, b, s); }
    forall id | id != t.file ensures SameInode(b, a, id) { assert SameInode(a, b, id); }
  }

  /** Distinct objects cannot share a location while both are reachable. */
  lemma ReachableApart(fs: FS, t: Target, u: Target)
    requires Reachable(fs, t) && Reachable(fs, u) && t.file != u.file
    ensures t.Live() != u.Live() && t.Quar() != u.Quar()
  {
  }

  lemma OthersKept(a: FS, b: FS, t: Target, u: Target)
    requires SameBut(a, b, t) && t.file != u.file && Reachable(a, t) && Reachable(a, u)
    ensures Reachable(b, u) && (OnBoth(a, u) <==> OnBoth(b, u))
    ensures OnlyQuarantined(a, u) <==> OnlyQuarantined(b, u)
  {
    ReachableApart(a, t, u);
    assert SameEntry(a, b, u.Live()) && SameEntry(a, b, u.Quar()) && SameInode(a, b, u.file);
  }

  lemma RecoverableKept(a: FS, b: FS, ts: seq<Target>, i: nat)
    requires DistinctFiles(ts) && i < |ts| && Recoverable(a, ts)
    requires SameBut(a, b, ts[i]) && Reachable(b, ts[i])
    ensures Recoverable(b, ts)
    ensures forall k | 0 <= k < |ts| && k != i :: OnBoth(a, ts[k]) <==> OnBoth(b, ts[k])
  {
    forall k | 0 <= k < |ts| && k != i
      ensures Reachable(b, ts[k]) && (OnBoth(a, ts[k]) <==> OnBoth(b, ts[k]))
    {
      assert Reachable(a, ts[k]) && Reachable(a, ts[i]);
      assert ts[k].file != ts[i].file by { if k < i {} else {} }
      OthersKept(a, b, ts[i], ts[k]);
    }
  }

  // ----- One system call on one object -----

  lemma MoveKeeps(fs: FS, t: Target, from: Slot, to: Slot)
    requires Reachable(fs, t) && CanMove(fs, from, to)
    requires (from == t.Live() && to == t.Quar()) || (from == t.Quar() && to == t.Live())
    ensures SameBut(fs, Moved(fs, from, to), t) && SameBut(fs, Linked(fs, from, to), t)
    ensures !OnBoth(fs, t) && At(fs, from, t)
    ensures Reachable(Moved(fs, from, to), t) && !OnBoth(Moved(fs, from, to), t) && At(Moved(fs, from, to), to, t)
    ensures OnBoth(Linked(fs, from, to), t)
    ensures Moved(fs, from, to).inodes == fs.inodes
    ensures Linked(fs, from, to).inodes[t.file].mode == fs.inodes[t.file].mode
  {
  }

  lemma ChmodKeeps(fs: FS, t: Target, mode: nat)
    requires Reachable(fs, t) && (mode == QUARANTINE_MODE || mode == t.mode)
    ensures SameBut(fs, Chmodded(fs, t.file, mode), t)
    ensures Reachable(Chmodded(fs, t.file, mode), t)
    ensures OnBoth(fs, t) <==> OnBoth(Chmodded(fs, t.file, mode), t)
    ensures Chmodded(fs, t.file, mode).names == fs.names
  {
  }

  lemma UnlinkKeeps(fs: FS, t: Target)
    requires OnBoth(fs, t)
    ensures SameBut(fs, Unlinked(fs, t.Quar()), t) && OnlyLive(Unlinked(fs, t.Quar()), t)
  {
  }

  // ----- Every image a power loss could leave -----

  /** The current state and every possible image are recoverable; a torn state (both names) is
      never only in memory. */
  ghost predicate Bound(fs: FS, images: set<FS>, ts: seq<Target>) {
    && fs in images
    && (forall im | im in images :: Recoverable(im, ts))
    && (forall i, im | 0 <= i < |ts| && im in images :: OnBoth(fs, ts[i]) ==> OnBoth(im, ts[i]))
  }

  lemma OriginalIsBound(fs: FS, ts: seq<Target>)
    requires AllOriginal(fs, ts)
    ensures Bound(fs, {fs}, ts)
  {
    forall i | 0 <= i < |ts| ensures Reachable(fs, ts[i]) { assert Original(fs, ts[i]); }
  }

  lemma BoundAfterRename(fs: FS, images: set<FS>, ts: seq<Target>, i: nat, from: Slot, to: Slot)
    requires Bound(fs, images, ts) && DistinctFiles(ts) && i < |ts|
    requires (from == ts[i].Live() && to == ts[i].Quar()) || (from == ts[i].Quar() && to == ts[i].Live())
    ensures forall im | im in AfterRename(images, from, to) :: Recoverable(im, ts)
    ensures CanMove(fs, from, to) ==> Bound(Moved(fs, from, to), AfterRename(images, from, to), ts)
  {
    var after := AfterRename(images, from, to);
    forall im | im in after
      ensures Recoverable(im, ts)
      ensures forall k | 0 <= k < |ts| && k != i :: OnBoth(fs, ts[k]) ==> OnBoth(im, ts[k])
    {
      if im !in images {
        var pre :| pre in images && CanMove(pre, from, to)
          && (im == Moved(pre, from, to) || im == Linked(pre, from, to));
        assert Reachable(pre, ts[i]);
        MoveKeeps(pre, ts[i], from, to);
        RecoverableKept(pre, im, ts, i);
      }
    }
    if CanMove(fs, from, to) {
      assert Recoverable(fs, ts) && Reachable(fs, ts[i]);
      MoveKeeps(fs, ts[i], from, to);
      RecoverableKept(fs, Moved(fs, from, to), ts, i);
      assert Moved(fs, from, to) in after;
    }
  }

  lemma BoundAfterChmod(fs: FS, images: set<FS>, ts: seq<Target>, i: nat, mode: nat)
    requires Bound(fs, images, ts) && DistinctFiles(ts) && i < |ts|
    requires mode == QUARANTINE_MODE || mode == ts[i].mode
    ensures ts[i].file in fs.inodes
    ensures forall im | im in AfterChmod(images, ts[i].file, mode) :: Recoverable(im, ts)
    ensures Bound(Chmodded(fs, ts[i].file, mode), AfterChmod(images, ts[i].file, mode), ts)
  {
    var t := ts[i];
    assert Recoverable(fs, ts) && Reachable(fs, t);
    ChmodKeeps(fs, t, mode);
    RecoverableKept(fs, Chmodded(fs, t.file, mode), ts, i);
    forall im | im in AfterChmod(images, t.file, mode)
      ensures Recoverable(im, ts)
      ensures forall k | 0 <= k < |ts| :: OnBoth(Chmodded(fs, t.file, mode), ts[k]) ==> OnBoth(im, ts[k])
    {
      if im !in images {
        var pre :| pre in images && t.file in pre.inodes && im == Chmodded(pre, t.file, mode);
        assert Reachable(pre, t);
        ChmodKeeps(pre, t, mode);
        RecoverableKept(pre, im, ts, i);
      }
    }
  }

  lemma BoundAfterUnlink(fs: FS, images: set<FS>, ts: seq<Target>, i: nat)
    requires Bound(fs, images, ts) && DistinctFiles(ts) && i < |ts| && OnBoth(fs, ts[i])
    ensures forall im | im in AfterUnlink(images, ts[i].Quar()) :: Recoverable(im, ts)
    ensures Bound(Unlinked(fs, ts[i].Quar()), AfterUnlink(images, ts[i].Quar()), ts)
  {
    var t := ts[i];
    UnlinkKeeps(fs, t);
    RecoverableKept(fs, Unlinked(fs, t.Quar()), ts, i);
    forall im | im in AfterUnlink(images, t.Quar())
      ensures Recoverable(im, ts)
      ensures forall k | 0 <= k < |ts| && k != i :: OnBoth(fs, ts[k]) ==> OnBoth(im, ts[k])
    {
      if im !in images {
        var pre :| pre in images && CanUnlink(pre, t.Quar()) && im == Unlinked(pre, t.Quar());
        UnlinkKeeps(pre, t);
        RecoverableKept(pre, im, ts, i);
      }
    }
  }

  // ----- Durability: which calls are still pending -----

  /** Only changes to one object may still be pending. */
  ghost predicate PendingOnly(fs: FS, images: set<FS>, t: Target) {
    fs in images && forall im | im in images :: im == fs || (SameBut(im, fs, t) && Reachable(im, t))
  }

  /** Two states of an object that agree on its names and mode, and on everything else, are equal. */
  lemma SameState(a: FS, b: FS, t: Target)
    requires SameBut(a, b, t) && Reachable(a, t) && Reachable(b, t)
    requires SameEntry(a, b, t.Live()) && SameEntry(a, b, t.Quar()) && AgreeInMode(a, b, t.file)
    ensures a == b
  {
    assert forall s :: SameEntry(a, b, s);
    assert forall id :: SameInode(a, b, id);
    assert a.names == b.names by {
      forall s ensures s in a.names <==> s in b.names { assert SameEntry(a, b, s); }
      forall s | s in a.names ensures a.names[s] == b.names[s] { assert SameEntry(a, b, s); }
    }
    assert a.inodes == b.inodes by {
      forall id ensures id in a.inodes <==> id in b.inodes { assert SameInode(a, b, id); }
      forall id | id in a.inodes ensures a.inodes[id] == b.inodes[id] { assert SameInode(a, b, id); }
    }
  }

  function Restored(fs: FS, t: Target): FS
    requires OnlyQuarantined(fs, t)
  {
    Moved(Chmodded(fs, t.file, t.mode), t.Quar(), t.Live())
  }

  function Enacted(fs: FS, t: Target): FS
    requires OnlyLive(fs, t)
  {
    Chmodded(Moved(fs, t.Live(), t.Quar()), t.file, QUARANTINE_MODE)
  }

  lemma PendingChmod(fs: FS, images: set<FS>, t: Target, mode: nat)
    requires PendingOnly(fs, images, t) && Reachable(fs, t) && (mode == QUARANTINE_MODE || mode == t.mode)
    ensures PendingOnly(Chmodded(fs, t.file, mode), AfterChmod(images, t.file, mode), t)
  {
    var fs' := Chmodded(fs, t.file, mode);
    ChmodKeeps(fs, t, mode);
    assert fs' in AfterChmod(images, t.file, mode);
    forall im | im in AfterChmod(images, t.file, mode) ensures SameBut(im, fs', t) && Reachable(im, t) {
      var pre :| pre in images && (im == pre || (t.file in pre.inodes && im == Chmodded(pre, t.file, mode)));
      ChmodKeeps(pre, t, mode);
      SameButSym(pre, Chmodded(pre, t.file, mode), t);
      SameButTrans(im, pre, fs, t);
      SameButTrans(im, fs, fs', t);
    }
  }

  lemma PendingRename(fs: FS, images: set<FS>, t: Target, from: Slot, to: Slot)
    requires PendingOnly(fs, images, t) && Reachable(fs, t) && CanMove(fs, from, to)
    requires (from == t.Live() && to == t.Quar()) || (from == t.Quar() && to == t.Live())
    ensures PendingOnly(Moved(fs, from, to), AfterRename(images, from, to), t)
    ensures forall im | im in AfterRename(images, from, to) :: Reachable(im, t) && SameBut(im, Moved(fs, from, to), t)
    ensures (forall im | im in images :: AgreeInMode(im, fs, t.file)) ==>
      forall im | im in AfterRename(images, from, to) :: AgreeInMode(im, fs, t.file)
  {
    var fs' := Moved(fs, from, to);
    MoveKeeps(fs, t, from, to);
    var after := AfterRename(images, from, to);
    assert fs' in after;
    forall im | im in after
      ensures SameBut(im, fs', t) && Reachable(im, t)
      ensures (forall im | im in images :: AgreeInMode(im, fs, t.file)) ==> AgreeInMode(im, fs, t.file)
    {
      var pre :| pre in images &&
        (im == pre || (CanMove(pre, from, to) && (im == Moved(pre, from, to) || im == Linked(pre, from, to))));
      if im != pre {
        MoveKeeps(pre, t, from, to);
        SameButSym(pre, im, t);
      }
      SameButTrans(im, pre, fs, t);
      SameButTrans(im, fs, fs', t);
    }
  }

  /** restore_one syncs enough: after its fchmod, fsync, rename and two directory fsyncs nothing is
      pending, whatever was pending on this object before. */
  lemma RestoreSettles(fs: FS, images: set<FS>, t: Target, synced: set<FS>, done: set<FS>)
    requires PendingOnly(fs, images, t) && OnlyQuarantined(fs, t)
    requires synced == AfterSyncFile(AfterChmod(images, t.file, t.mode), Chmodded(fs, t.file, t.mode), t.file)
    requires done == AfterSyncDirectory(
                       AfterSyncDirectory(AfterRename(synced, t.Quar(), t.Live()), Restored(fs, t), LIVE, t.dir),
                       Restored(fs, t), QUARANTINE, t.dir)
    ensures done == {Restored(fs, t)}
  {
    var fs1 := Chmodded(fs, t.file, t.mode);
    PendingChmod(fs, images, t, t.mode);
    var fs2 := Restored(fs, t);
    PendingRename(fs1, synced, t, t.Quar(), t.Live());
    forall im | im in done ensures im == fs2 {
      assert SameEntry(im, fs2, t.Live());
      assert SameEntry(im, fs2, t.Quar());
      SameState(im, fs2, t);
    }
    assert fs2 in done;
  }

  lemma RestoredIsOriginal(fs: FS, t: Target)
    requires OnlyQuarantined(fs, t)
    ensures Original(Restored(fs, t), t)
  {
  }

  /** A forward move is durable once both parents are synced, destination first. */
  lemma MoveSettles(fs: FS, t: Target, done: set<FS>)
    requires OnlyLive(fs, t)
    requires done == AfterSyncDirectory(
                       AfterSyncDirectory(AfterRename({fs}, t.Live(), t.Quar()), Moved(fs, t.Live(), t.Quar()),
                         QUARANTINE, t.dir),
                       Moved(fs, t.Live(), t.Quar()), LIVE, t.dir)
    ensures done == {Moved(fs, t.Live(), t.Quar())}
  {
    var fs1 := Moved(fs, t.Live(), t.Quar());
    PendingRename(fs, {fs}, t, t.Live(), t.Quar());
    assert AgreeInMode(fs, fs, t.file);
    forall im | im in done ensures im == fs1 {
      assert SameEntry(im, fs1, t.Live());
      assert SameEntry(im, fs1, t.Quar());
      SameState(im, fs1, t);
    }
    assert fs1 in done;
  }

  /** Removing the second name is durable once the quarantine parent is synced. */
  lemma UnlinkSettles(fs: FS, t: Target)
    requires OnBoth(fs, t)
    ensures AfterSyncDirectory(AfterUnlink({fs}, t.Quar()), Unlinked(fs, t.Quar()), QUARANTINE, t.dir)
            == {Unlinked(fs, t.Quar())}
  {
    var fs2 := Unlinked(fs, t.Quar());
    assert AfterUnlink({fs}, t.Quar()) == {fs, fs2};
    assert !SameEntry(fs, fs2, t.Quar());
    assert AgreeInDirectory(fs2, fs2, QUARANTINE, t.dir);
    assert t.Quar() in fs.names.Keys + fs2.names.Keys;
    assert !AgreeInDirectory(fs, fs2, QUARANTINE, t.dir);
  }

  lemma ChmodSettles(fs: FS, t: Target, mode: nat)
    requires t.file in fs.inodes
    ensures AfterSyncFile(AfterChmod({fs}, t.file, mode), Chmodded(fs, t.file, mode), t.file)
            == {Chmodded(fs, t.file, mode)}
  {
    var fs1 := Chmodded(fs, t.file, mode);
    assert AfterChmod({fs}, t.file, mode) == {fs, fs1};
    if AgreeInMode(fs, fs1, t.file) {
      assert fs.inodes == fs1.inodes;
    }
    assert AfterSyncFile({fs, fs1}, fs1, t.file) == {fs1};
  }

  // ----- Whole transactions as functions -----

  /** The first n targets moved into quarantine, in manifest order. */
  function EnactedUpTo(fs: FS, ts: seq<Target>, n: nat): FS
    requires n <= |ts|
  {
    if n == 0 then fs
    else
      var before := EnactedUpTo(fs, ts, n - 1);
      if OnlyLive(before, ts[n - 1]) then Enacted(before, ts[n - 1]) else before
  }

  lemma {:induction false} EnactedUpToState(fs: FS, ts: seq<Target>, n: nat)
    requires n <= |ts| && AllOriginal(fs, ts) && DistinctFiles(ts)
    ensures forall i | 0 <= i < n :: Quarantined(EnactedUpTo(fs, ts, n), ts[i])
    ensures forall i | n <= i < |ts| :: Original(EnactedUpTo(fs, ts, n), ts[i])
  {
    if n > 0 {
      EnactedUpToState(fs, ts, n - 1);
      EnactKeeps(EnactedUpTo(fs, ts, n - 1), ts, n - 1);
    }
  }

  /** What one more move adds: an original target before it, exactly that target moved after it. */
  lemma EnactedStep(fs: FS, ts: seq<Target>, n: nat)
    requires n < |ts| && AllOriginal(fs, ts) && DistinctFiles(ts)
    ensures Original(EnactedUpTo(fs, ts, n), ts[n])
    ensures EnactedUpTo(fs, ts, n + 1) == Enacted(EnactedUpTo(fs, ts, n), ts[n])
  {
    EnactedUpToState(fs, ts, n);
  }

  lemma EnactKeeps(fs: FS, ts: seq<Target>, n: nat)
    requires n < |ts| && DistinctFiles(ts)
    requires forall i | 0 <= i < n :: Quarantined(fs, ts[i])
    requires forall i | n <= i < |ts| :: Original(fs, ts[i])
    ensures Original(fs, ts[n])
    ensures forall i | 0 <= i < n + 1 :: Quarantined(Enacted(fs, ts[n]), ts[i])
    ensures forall i | n + 1 <= i < |ts| :: Original(Enacted(fs, ts[n]), ts[i])
  {
    var t := ts[n];
    assert Original(fs, t);
    forall i | 0 <= i < |ts| && i != n
      ensures i < n ==> Quarantined(Enacted(fs, t), ts[i])
      ensures n < i ==> Original(Enacted(fs, t), ts[i])
    {
      assert Reachable(fs, ts[i]) by { if i < n { assert Quarantined(fs, ts[i]); } else { assert Original(fs, ts[i]); } }
      assert ts[i].file != t.file by { if i < n {} else {} }
      ReachableApart(fs, t, ts[i]);
    }
  }

  /** Restoring a moved target, whichever mode it has, undoes exactly its own move. */
  lemma RestoreUndoesMove(fs: FS, t: Target)
    requires Original(fs, t)
    ensures
      var moved := Moved(fs, t.Live(), t.Quar());
      && OnlyQuarantined(moved, t) && Restored(moved, t) == fs
      && OnlyQuarantined(Enacted(fs, t), t) && Restored(Enacted(fs, t), t) == fs
  {
    var moved := Moved(fs, t.Live(), t.Quar());
    assert Restored(moved, t).names == fs.names;
    assert Restored(moved, t).inodes == fs.inodes;
    assert Restored(Enacted(fs, t), t).names == fs.names;
    assert Restored(Enacted(fs, t), t).inodes == fs.inodes;
  }

  // ----- Success lines are sound from any state -----

  /** Manifest rows that name one location but different modes cannot all be satisfied. */
  ghost predicate AliasModesAgree(ts: seq<Target>) {
    forall i, j | 0 <= i < j < |ts| && ts[i].Live() == ts[j].Live() :: ts[i].mode == ts[j].mode
  }

  lemma OriginalModesAgree(fs: FS, ts: seq<Target>)
    requires AllOriginal(fs, ts)
    ensures AliasModesAgree(ts)
  {
    forall i, j | 0 <= i < j < |ts| && ts[i].Live() == ts[j].Live() ensures ts[i].mode == ts[j].mode {
      assert Original(fs, ts[i]) && Original(fs, ts[j]);
    }
  }

  /** What makes a later target's step harmless to an earlier one. */
  ghost predicate Independent(fs: FS, t: Target, u: Target) {
    t.file != u.file || (WellLinked(fs) && (t.Live() == u.Live() ==> t.mode == u.mode))
  }

  lemma RestoreKeepsOriginal(fs: FS, t: Target, u: Target)
    requires Original(fs, t) && OnlyQuarantined(fs, u) && (t.file != u.file || WellLinked(fs))
    ensures Original(Restored(fs, u), t)
  {
    if t.file == u.file { SingleLink(fs, t.Live(), u.Quar()); }
  }

  /** A target found at its live name: mode set back, and a second name at the quarantine side removed. */
  function Settle(fs: FS, t: Target): FS
    requires OnBoth(fs, t) || OnlyLive(fs, t)
  {
    var fs1 := Chmodded(fs, t.file, t.mode);
    if OnBoth(fs, t) then Unlinked(fs1, t.Quar()) else fs1
  }

  /** The first `n` targets settled in order, each at its live name when its turn comes. */
  function SettledThrough(fs: FS, ts: seq<Target>, n: nat): Option<FS>
    requires n <= |ts|
  {
    if n == 0 then Some(fs)
    else
      var before := SettledThrough(fs, ts, n - 1);
      if before.None? || !(OnBoth(before.value, ts[n - 1]) || OnlyLive(before.value, ts[n - 1])) then None
      else Some(Settle(before.value, ts[n - 1]))
  }

  lemma NothingSettled(fs: FS, ts: seq<Target>)
    ensures SettledThrough(fs, ts, 0) == Some(fs)
  {
  }

  lemma {:induction false} SettledStep(fs: FS, ts: seq<Target>, i: nat, n: nat)
    requires i < n <= |ts| && SettledThrough(fs, ts, n).Some?
    ensures SettledThrough(fs, ts, i).Some?
    ensures var now := SettledThrough(fs, ts, i).value;
      && (OnBoth(now, ts[i]) || OnlyLive(now, ts[i])) && Reachable(now, ts[i]) && !OnlyQuarantined(now, ts[i])
      && SettledThrough(fs, ts, i + 1) == Some(Settle(now, ts[i]))
  {
    if i + 1 < n { SettledStep(fs, ts, i, n - 1); }
  }

  lemma SettleKeepsOriginal(fs: FS, t: Target, u: Target)
    requires Original(fs, t) && (OnBoth(fs, u) || OnlyLive(fs, u)) && Independent(fs, t, u)
    ensures Original(Settle(fs, u), t)
  {
    if t.file == u.file { SingleLink(fs, t.Live(), u.Live()); }
  }

  lemma SettleReaches(fs: FS, t: Target)
    requires OnBoth(fs, t) || OnlyLive(fs, t)
    ensures Original(Settle(fs, t), t) && SameBut(fs, Settle(fs, t), t)
    ensures WellLinked(fs) ==> WellLinked(Settle(fs, t))
  {
    ChmodKeeps(fs, t, t.mode);
    var fs1 := Chmodded(fs, t.file, t.mode);
    if WellLinked(fs) { ChmoddedWellLinked(fs, t.file, t.mode); }
    if OnBoth(fs, t) {
      UnlinkKeeps(fs1, t);
      SameButTrans(fs, fs1, Settle(fs, t), t);
      if WellLinked(fs) { UnlinkedWellLinked(fs1, t.Quar()); }
    }
  }

  lemma RestoreReaches(fs: FS, t: Target)
    requires OnlyQuarantined(fs, t)
    ensures Original(Restored(fs, t), t) && SameBut(fs, Restored(fs, t), t)
    ensures WellLinked(fs) ==> WellLinked(Restored(fs, t))
  {
    ChmodKeeps(fs, t, t.mode);
    var fs1 := Chmodded(fs, t.file, t.mode);
    MoveKeeps(fs1, t, t.Quar(), t.Live());
    SameButTrans(fs, fs1, Restored(fs, t), t);
    if WellLinked(fs) {
      ChmoddedWellLinked(fs, t.file, t.mode);
      MovedWellLinked(fs1, t.Quar(), t.Live());
    }
  }

  /** Two rows for one location with different modes: settling the second takes the first one's
      mode away again, although each was exact when it was settled. */
  lemma AliasesDefeatEachOther(fs: FS, t: Target, mode: nat)
    requires Original(fs, t) && t.mode == QUARANTINE_MODE && mode != t.mode
    ensures var u := t.(mode := mode);
      && OnlyLive(fs, t) && Settle(fs, t) == fs
      && OnlyLive(fs, u) && Original(Settle(fs, u), u) && !Original(Settle(fs, u), t)
      && SettledThrough(fs, [t, u], 2) == Some(Settle(fs, u)) && !AliasModesAgree([t, u])
  {
    var u := t.(mode := mode);
    var ts := [t, u];
    assert Settle(fs, t) == fs;
    assert SettledThrough(fs, ts, 0) == Some(fs) && ts[0] == t;
    assert SettledThrough(fs, ts, 1) == Some(fs) && ts[1] == u;
    assert ts[0].Live() == ts[1].Live() && ts[0].mode != ts[1].mode;
    assert Settle(fs, t).inodes == fs.inodes;
  }

  /** Targets n and later restored, last one first; None if one was not there to restore. */
  function RestoredDownTo(fs: FS, ts: seq<Target>, n: nat): Option<FS>
    requires n <= |ts|
    decreases |ts| - n
  {
    if n == |ts| then Some(fs)
    else match RestoredDownTo(fs, ts, n + 1)
      case None => None
      case Some(later) => if OnlyQuarantined(later, ts[n]) then Some(Restored(later, ts[n])) else None
  }

  /** Whatever the start state: if every restore succeeds, every target is original at once. Either
      names respect link counts, or the manifest binds distinct objects. */
  lemma {:induction false} RestoredAreOriginal(fs: FS, ts: seq<Target>, n: nat)
    requires n <= |ts| && RestoredDownTo(fs, ts, n).Some? && (WellLinked(fs) || DistinctFiles(ts))
    ensures WellLinked(fs) ==> WellLinked(RestoredDownTo(fs, ts, n).value)
    ensures forall i | n <= i < |ts| :: Original(RestoredDownTo(fs, ts, n).value, ts[i])
    decreases |ts| - n
  {
    if n < |ts| {
      RestoredAreOriginal(fs, ts, n + 1);
      var later := RestoredDownTo(fs, ts, n + 1).value;
      RestoreReaches(later, ts[n]);
      forall i | n + 1 <= i < |ts| ensures Original(Restored(later, ts[n]), ts[i]) {
        assert Original(later, ts[i]);
        RestoreKeepsOriginal(later, ts[i], ts[n]);
      }
    }
  }

  /** From a quarantined state every restore finds its target. */
  lemma {:induction false} RestoreFindsAll(fs: FS, ts: seq<Target>, n: nat)
    requires n <= |ts| && AllQuarantined(fs, ts) && DistinctFiles(ts)
    ensures RestoredDownTo(fs, ts, n).Some?
    ensures forall i | 0 <= i < n :: Quarantined(RestoredDownTo(fs, ts, n).value, ts[i])
    decreases |ts| - n
  {
    if n < |ts| {
      RestoreFindsAll(fs, ts, n + 1);
      var later, t := RestoredDownTo(fs, ts, n + 1).value, ts[n];
      assert Quarantined(later, t);
      forall i | 0 <= i < n ensures Quarantined(Restored(later, t), ts[i]) {
        assert Quarantined(later, ts[i]) && ts[i].file != t.file;
        ReachableApart(later, t, ts[i]);
      }
    }
  }

  /** Rollback of a committed transaction is its exact inverse: names, inodes, modes, bytes. */
  lemma {:induction false} RollbackInvertsApply(fs: FS, ts: seq<Target>, n: nat)
    requires n <= |ts| && AllOriginal(fs, ts) && DistinctFiles(ts)
    ensures RestoredDownTo(EnactedUpTo(fs, ts, |ts|), ts, n) == Some(EnactedUpTo(fs, ts, n))
    decreases |ts| - n
  {
    if n < |ts| {
      RollbackInvertsApply(fs, ts, n + 1);
      EnactedStep(fs, ts, n);
      RestoreUndoesMove(EnactedUpTo(fs, ts, n), ts[n]);
    }
  }
}
