/** What a power loss may leave after reconcile: the state and its possible images, followed through the run. */
module Durability {
  import opened Disk
  import opened Targets

  /** Found at its live name by the first loop of reconcile. */
  predicate AtHome(fs: FS, t: Target) { OnBoth(fs, t) || OnlyLive(fs, t) }

  /** After fchmod and fsync of one object. */
  function RemodedImages(fs: FS, images: set<FS>, t: Target): set<FS> requires t.file in fs.inodes {
    AfterSyncFile(AfterChmod(images, t.file, t.mode), Chmodded(fs, t.file, t.mode), t.file)
  }

  /** After a target was settled at its live name; only the removal of a second name is followed by a directory fsync. */
  function SettledImages(fs: FS, images: set<FS>, t: Target): set<FS> requires AtHome(fs, t) {
    var remoded := RemodedImages(fs, images, t);
    if OnBoth(fs, t) then AfterSyncDirectory(AfterUnlink(remoded, t.Quar()), Settle(fs, t), QUARANTINE, t.dir)
      else remoded
  }

  /** After restore_one. */
  function RestoredImages(fs: FS, images: set<FS>, t: Target): set<FS> requires OnlyQuarantined(fs, t) {
    var renamed := AfterRename(RemodedImages(fs, images, t), t.Quar(), t.Live());
    AfterSyncDirectory(AfterSyncDirectory(renamed, Restored(fs, t), LIVE, t.dir), Restored(fs, t), QUARANTINE, t.dir)
  }

  // ----- The two loops of reconcile as functions -----

  datatype Medium = Medium(fs: FS, images: set<FS>)

  function SettledOne(m: Medium, t: Target): Medium {
    if AtHome(m.fs, t) then Medium(Settle(m.fs, t), SettledImages(m.fs, m.images, t)) else m
  }

  /** After the first loop handled `n` targets: those found at home are settled, the others wait. */
  function Forward(m: Medium, ts: seq<Target>, n: nat): Medium
    requires n <= |ts|
  {
    if n == 0 then m else SettledOne(Forward(m, ts, n - 1), ts[n - 1])
  }

  predicate Waits(m: Medium, ts: seq<Target>, k: nat) requires k < |ts| { !AtHome(Forward(m, ts, k).fs, ts[k]) }

  /** After the second loop restored the waiting targets from `n` on, last one first; None if one was not there to
      restore. */
  function Backward(m: Medium, ts: seq<Target>, n: nat): Option<Medium>
    requires n <= |ts|
    decreases |ts| - n
  {
    if n == |ts| then Some(Forward(m, ts, n))
    else match Backward(m, ts, n + 1)
      case None => None
      case Some(later) =>
        if !Waits(m, ts, n) then Some(later)
        else if OnlyQuarantined(later.fs, ts[n]) then Some(RestoredOne(later, ts[n]))
        else None
  }

  function RestoredOne(m: Medium, t: Target): Medium requires OnlyQuarantined(m.fs, t) {
    Medium(Restored(m.fs, t), RestoredImages(m.fs, m.images, t))
  }

  // ----- What they keep -----

  /** What keeps settled targets settled while others are handled. */
  ghost predicate Tame(fs: FS, ts: seq<Target>) {
    DistinctFiles(ts) || (WellLinked(fs) && AliasModesAgree(ts))
  }

  lemma TameIndependent(fs: FS, ts: seq<Target>, i: nat, j: nat)
    requires Tame(fs, ts) && i < |ts| && j < |ts| && i != j
    ensures Independent(fs, ts[i], ts[j])
  {
    if i < j {} else { assert j < i; }
  }

  /** Settling one target leaves the others as they were. */
  lemma SettleOneKeeps(fs: FS, ts: seq<Target>, i: nat, k: nat)
    requires i < |ts| && k < |ts| && k != i && AtHome(fs, ts[i])
    ensures Original(Settle(fs, ts[i]), ts[i]) && (Tame(fs, ts) ==> Tame(Settle(fs, ts[i]), ts))
    ensures Tame(fs, ts) && Original(fs, ts[k]) ==> Original(Settle(fs, ts[i]), ts[k])
    ensures DistinctFiles(ts) && Reachable(fs, ts[k]) ==> Untouched(fs, Settle(fs, ts[i]), ts[k])
  {
    SettleReaches(fs, ts[i]);
    hide Settle, Original, OnBoth, OnlyLive, Reachable, OnlyQuarantined;
    if Tame(fs, ts) && Original(fs, ts[k]) {
      TameIndependent(fs, ts, k, i);
      SettleKeepsOriginal(fs, ts[k], ts[i]);
    }
    if DistinctFiles(ts) && Reachable(fs, ts[k]) { Undisturbed(fs, Settle(fs, ts[i]), ts, i, k); }
  }

  /** One object is where it was, with the same inode. */
  predicate Untouched(a: FS, b: FS, t: Target) {
    SameEntry(a, b, t.Live()) && SameEntry(a, b, t.Quar()) && SameInode(a, b, t.file)
  }

  lemma UntouchedMeans(a: FS, b: FS, t: Target)
    requires Untouched(a, b, t)
    ensures OnlyLive(a, t) <==> OnlyLive(b, t)
    ensures OnlyQuarantined(a, t) <==> OnlyQuarantined(b, t)
    ensures OnBoth(a, t) <==> OnBoth(b, t)
    ensures Original(a, t) <==> Original(b, t)
  {
  }

  lemma Undisturbed(a: FS, b: FS, ts: seq<Target>, i: nat, k: nat)
    requires i < |ts| && k < |ts| && i != k && DistinctFiles(ts)
    requires SameBut(a, b, ts[i]) && Reachable(a, ts[i]) && Reachable(a, ts[k])
    ensures Untouched(a, b, ts[k])
  {
    assert ts[i].file != ts[k].file by { if i < k {} else { assert k < i; } }
    ReachableApart(a, ts[i], ts[k]);
  }

  lemma RestoreOneKeeps(fs: FS, ts: seq<Target>, i: nat, k: nat)
    requires i < |ts| && k < |ts| && k != i && OnlyQuarantined(fs, ts[i])
    ensures Original(Restored(fs, ts[i]), ts[i]) && (Tame(fs, ts) ==> Tame(Restored(fs, ts[i]), ts))
    ensures Tame(fs, ts) && Original(fs, ts[k]) ==> Original(Restored(fs, ts[i]), ts[k])
    ensures DistinctFiles(ts) && Reachable(fs, ts[k]) ==> Untouched(fs, Restored(fs, ts[i]), ts[k])
  {
    RestoreReaches(fs, ts[i]);
    assert Reachable(fs, ts[i]);
    hide Restored, Original, OnBoth, OnlyLive, Reachable, OnlyQuarantined;
    if Tame(fs, ts) && Original(fs, ts[k]) {
      TameIndependent(fs, ts, k, i);
      RestoreKeepsOriginal(fs, ts[k], ts[i]);
    }
    if DistinctFiles(ts) && Reachable(fs, ts[k]) { Undisturbed(fs, Restored(fs, ts[i]), ts, i, k); }
  }

  lemma {:induction false} ForwardTame(m: Medium, ts: seq<Target>, n: nat)
    requires n <= |ts| && Tame(m.fs, ts)
    ensures Tame(Forward(m, ts, n).fs, ts)
    ensures forall k | 0 <= k < n && !Waits(m, ts, k) :: Original(Forward(m, ts, n).fs, ts[k])
  {
    hide Original, Settle, SettledImages, Tame;
    if n > 0 {
      ForwardTame(m, ts, n - 1);
      var before := Forward(m, ts, n - 1);
      if AtHome(before.fs, ts[n - 1]) {
        SettleTame(before.fs, ts, n - 1);
        forall k | 0 <= k < n && !Waits(m, ts, k) ensures Original(Settle(before.fs, ts[n - 1]), ts[k]) {
          if k < n - 1 { SettleOneKeeps(before.fs, ts, n - 1, k); }
        }
      }
    }
  }

  lemma SettleTame(fs: FS, ts: seq<Target>, i: nat)
    requires i < |ts| && AtHome(fs, ts[i])
    ensures Original(Settle(fs, ts[i]), ts[i]) && (Tame(fs, ts) ==> Tame(Settle(fs, ts[i]), ts))
  {
    SettleReaches(fs, ts[i]);
    hide Settle, Original, OnBoth, OnlyLive;
  }

  lemma RestoreTame(fs: FS, ts: seq<Target>, i: nat)
    requires i < |ts| && OnlyQuarantined(fs, ts[i])
    ensures Original(Restored(fs, ts[i]), ts[i]) && (Tame(fs, ts) ==> Tame(Restored(fs, ts[i]), ts))
  {
    RestoreReaches(fs, ts[i]);
    hide Restored, Original, OnlyQuarantined;
  }

  lemma {:induction false} BackwardTame(m: Medium, ts: seq<Target>, n: nat)
    requires n <= |ts| && Tame(m.fs, ts) && Backward(m, ts, n).Some?
    ensures Tame(Backward(m, ts, n).value.fs, ts)
    ensures forall k | 0 <= k < |ts| && (!Waits(m, ts, k) || n <= k) :: Original(Backward(m, ts, n).value.fs, ts[k])
    decreases |ts| - n
  {
    hide Original, Restored, RestoredImages, Tame, Waits, OnlyQuarantined, Forward;
    if n == |ts| {
      ForwardTame(m, ts, n);
    } else {
      BackwardTame(m, ts, n + 1);
      var later := Backward(m, ts, n + 1).value;
      if Waits(m, ts, n) {
        RestoreTame(later.fs, ts, n);
        forall k | 0 <= k < |ts| && k != n && (!Waits(m, ts, k) || n <= k)
          ensures Original(Restored(later.fs, ts[n]), ts[k]) {
          RestoreOneKeeps(later.fs, ts, n, k);
        }
      }
    }
  }

  lemma UntouchedTrans(a: FS, b: FS, c: FS, t: Target)
    requires Untouched(a, b, t) && Untouched(b, c, t)
    ensures Untouched(a, c, t)
  {
  }

  lemma SettleStep(fs: FS, ts: seq<Target>, i: nat)
    requires i < |ts| && DistinctFiles(ts) && Recoverable(fs, ts) && AtHome(fs, ts[i])
    ensures Recoverable(Settle(fs, ts[i]), ts) && forall k | 0 <= k < |ts| && k != i ::
      Untouched(fs, Settle(fs, ts[i]), ts[k])
  {
    SettleTame(fs, ts, i);
    OriginalReachable(Settle(fs, ts[i]), ts[i]);
    hide Settle, OnBoth, OnlyLive, OnlyQuarantined, Untouched, DistinctFiles, Original;
    forall k | 0 <= k < |ts| && k != i
      ensures Untouched(fs, Settle(fs, ts[i]), ts[k]) && Reachable(Settle(fs, ts[i]), ts[k]) {
      SettleOneKeeps(fs, ts, i, k);
      UntouchedMeans(fs, Settle(fs, ts[i]), ts[k]);
    }
  }

  lemma RestoreStep(fs: FS, ts: seq<Target>, i: nat)
    requires i < |ts| && DistinctFiles(ts) && Recoverable(fs, ts) && OnlyQuarantined(fs, ts[i])
    ensures Recoverable(Restored(fs, ts[i]), ts) && forall k | 0 <= k < |ts| && k != i ::
      Untouched(fs, Restored(fs, ts[i]), ts[k])
  {
    RestoreTame(fs, ts, i);
    OriginalReachable(Restored(fs, ts[i]), ts[i]);
    hide Restored, OnBoth, OnlyLive, OnlyQuarantined, Untouched, DistinctFiles, Original;
    forall k | 0 <= k < |ts| && k != i
      ensures Untouched(fs, Restored(fs, ts[i]), ts[k]) && Reachable(Restored(fs, ts[i]), ts[k]) {
      RestoreOneKeeps(fs, ts, i, k);
      UntouchedMeans(fs, Restored(fs, ts[i]), ts[k]);
    }
  }

  lemma {:induction false} ForwardRecoverable(m: Medium, ts: seq<Target>, n: nat)
    requires n <= |ts| && DistinctFiles(ts) && Recoverable(m.fs, ts)
    ensures Recoverable(Forward(m, ts, n).fs, ts)
  {
    hide OnBoth, OnlyLive, Settle, SettledImages, Untouched, DistinctFiles, Recoverable;
    if n > 0 {
      ForwardRecoverable(m, ts, n - 1);
      if AtHome(Forward(m, ts, n - 1).fs, ts[n - 1]) { SettleStep(Forward(m, ts, n - 1).fs, ts, n - 1); }
    }
  }

  /** From recoverable states a target stays as it is until its turn, and one in quarantine throughout the first loop. */
  lemma {:induction false} ForwardUntouched(m: Medium, ts: seq<Target>, n: nat, k: nat)
    requires n <= |ts| && k < |ts| && DistinctFiles(ts) && Recoverable(m.fs, ts)
      && (n <= k || OnlyQuarantined(m.fs, ts[k]))
    ensures Untouched(m.fs, Forward(m, ts, n).fs, ts[k])
  {
    if n > 0 {
      ForwardUntouched(m, ts, n - 1, k);
      ForwardRecoverable(m, ts, n - 1);
      var before := Forward(m, ts, n - 1);
      UntouchedMeans(m.fs, before.fs, ts[k]);
      OnePlace(before.fs, ts[k]);
      hide OnBoth, OnlyLive, OnlyQuarantined, Settle, SettledImages, Untouched, DistinctFiles, Recoverable;
      if AtHome(before.fs, ts[n - 1]) {
        SettleStep(before.fs, ts, n - 1);
        UntouchedTrans(m.fs, before.fs, Settle(before.fs, ts[n - 1]), ts[k]);
      }
    }
  }

  lemma OriginalReachable(fs: FS, t: Target)
    requires Original(fs, t)
    ensures OnlyLive(fs, t) && Reachable(fs, t)
  {
  }

  lemma OnePlace(fs: FS, t: Target)
    ensures OnlyQuarantined(fs, t) ==> !AtHome(fs, t)
    ensures OnlyLive(fs, t) ==> !OnBoth(fs, t)
  {
  }

  /** From recoverable states exactly the targets in quarantine wait. */
  lemma WaitsIff(m: Medium, ts: seq<Target>, k: nat)
    requires k < |ts| && DistinctFiles(ts) && Recoverable(m.fs, ts)
    ensures Waits(m, ts, k) <==> OnlyQuarantined(m.fs, ts[k])
  {
    ForwardRecoverable(m, ts, k);
    ForwardUntouched(m, ts, k, k);
    assert Reachable(Forward(m, ts, k).fs, ts[k]);
    UntouchedMeans(m.fs, Forward(m, ts, k).fs, ts[k]);
    OnePlace(Forward(m, ts, k).fs, ts[k]);
    hide OnBoth, OnlyLive, OnlyQuarantined, Untouched, Forward, DistinctFiles;
  }

  /** From recoverable states the second loop finds every waiting target. */
  lemma {:induction false} BackwardFinds(m: Medium, ts: seq<Target>, n: nat)
    requires n <= |ts| && DistinctFiles(ts) && Recoverable(m.fs, ts)
    ensures Backward(m, ts, n).Some? && Recoverable(Backward(m, ts, n).value.fs, ts)
    ensures forall k | 0 <= k < n && OnlyQuarantined(m.fs, ts[k]) :: OnlyQuarantined(Backward(m, ts, n).value.fs, ts[k])
    decreases |ts| - n
  {
    ForwardRecoverable(m, ts, |ts|);
    hide OnBoth, OnlyLive, OnlyQuarantined, Restored, RestoredImages, Untouched, Forward, DistinctFiles, Waits,
      Recoverable;
    if n < |ts| {
      BackwardFinds(m, ts, n + 1);
      WaitsIff(m, ts, n);
      var later := Backward(m, ts, n + 1).value;
      if Waits(m, ts, n) {
        RestoreStep(later.fs, ts, n);
        forall k | 0 <= k < n && OnlyQuarantined(m.fs, ts[k])
          ensures OnlyQuarantined(Restored(later.fs, ts[n]), ts[k]) {
          UntouchedMeans(later.fs, Restored(later.fs, ts[n]), ts[k]);
        }
      }
    } else {
      forall k | 0 <= k < n && OnlyQuarantined(m.fs, ts[k]) ensures OnlyQuarantined(Forward(m, ts, n).fs, ts[k]) {
        ForwardUntouched(m, ts, n, k);
        UntouchedMeans(m.fs, Forward(m, ts, n).fs, ts[k]);
      }
    }
  }

  /** Nothing is pending after what began with nothing pending. */
  lemma {:induction false} ForwardSettles(m: Medium, ts: seq<Target>, n: nat)
    requires n <= |ts| && m.images == {m.fs}
    ensures Forward(m, ts, n).images == {Forward(m, ts, n).fs}
  {
    if n > 0 {
      ForwardSettles(m, ts, n - 1);
      SettleSettles(Forward(m, ts, n - 1).fs, ts[n - 1]);
      hide Settle, SettledImages, OnBoth, OnlyLive;
    }
  }

  lemma SettleSettles(fs: FS, t: Target)
    ensures AtHome(fs, t) ==> SettledImages(fs, {fs}, t) == {Settle(fs, t)}
  {
    if AtHome(fs, t) {
      ChmodSettles(fs, t, t.mode);
      var fs1 := Chmodded(fs, t.file, t.mode);
      if OnBoth(fs, t) { UnlinkSettles(fs1, t); }
      hide AfterChmod, AfterSyncFile, AfterUnlink, AfterSyncDirectory, Chmodded, Unlinked;
    }
  }

  lemma {:induction false} BackwardSettles(m: Medium, ts: seq<Target>, n: nat)
    requires n <= |ts| && m.images == {m.fs} && Backward(m, ts, n).Some?
    ensures Backward(m, ts, n).value.images == {Backward(m, ts, n).value.fs}
    decreases |ts| - n
  {
    hide Restored, RestoredImages, OnlyQuarantined, Forward, Waits;
    if n == |ts| {
      ForwardSettles(m, ts, n);
    } else {
      BackwardSettles(m, ts, n + 1);
      RestoreSettlesAll(Backward(m, ts, n + 1).value.fs, {Backward(m, ts, n + 1).value.fs}, ts[n]);
    }
  }

  lemma RestoreSettlesAll(fs: FS, images: set<FS>, t: Target)
    requires PendingOnly(fs, images, t)
    ensures OnlyQuarantined(fs, t) ==> RestoredImages(fs, images, t) == {Restored(fs, t)}
  {
    if OnlyQuarantined(fs, t) {
      RestoreSettles(fs, images, t, RemodedImages(fs, images, t), RestoredImages(fs, images, t));
    }
  }

  /** Where every target is at home when its turn comes, nothing waits. */
  lemma {:induction false} ForwardThrough(m: Medium, ts: seq<Target>, n: nat)
    requires n <= |ts| && SettledThrough(m.fs, ts, n).Some?
    ensures SettledThrough(m.fs, ts, n) == Some(Forward(m, ts, n).fs) && forall k | 0 <= k < n :: !Waits(m, ts, k)
  {
    hide Settle, SettledImages, OnBoth, OnlyLive;
    if n > 0 { ForwardThrough(m, ts, n - 1); }
  }

  /** Where every target is in quarantine, the first loop does nothing. */
  lemma {:induction false} ForwardQuarantined(m: Medium, ts: seq<Target>, n: nat)
    requires n <= |ts| && AllQuarantined(m.fs, ts)
    ensures Forward(m, ts, n) == m && forall k | 0 <= k < n :: Waits(m, ts, k)
  {
    if n > 0 {
      ForwardQuarantined(m, ts, n - 1);
      assert Quarantined(m.fs, ts[n - 1]);
    }
  }

  // ----- One target pending: what a step on another target does to the images -----

  /** Recoverable, and only changes to one target may be pending. */
  ghost predicate Pending(m: Medium, ts: seq<Target>, p: nat) requires p < |ts| {
    DistinctFiles(ts) && Recoverable(m.fs, ts) && PendingOnly(m.fs, m.images, ts[p])
  }

  lemma PendingImage(m: Medium, ts: seq<Target>, p: nat, im: FS)
    requires p < |ts| && Pending(m, ts, p) && im in m.images
    ensures SameBut(im, m.fs, ts[p]) && Reachable(im, ts[p]) && Recoverable(im, ts)
    ensures forall k | 0 <= k < |ts| && k != p :: Untouched(m.fs, im, ts[k])
  {
    SameButSym(im, m.fs, ts[p]);
    assert Reachable(m.fs, ts[p]);
    hide OnBoth, OnlyLive, OnlyQuarantined, Reachable, SameBut, Untouched, DistinctFiles;
    forall k | 0 <= k < |ts| && k != p ensures Untouched(m.fs, im, ts[k]) && Reachable(im, ts[k]) {
      assert Reachable(m.fs, ts[k]);
      Undisturbed(m.fs, im, ts, p, k);
      UntouchedReachable(m.fs, im, ts[k]);
    }
  }

  lemma UntouchedReachable(a: FS, b: FS, t: Target)
    requires Untouched(a, b, t) && Reachable(a, t)
    ensures Reachable(b, t)
  {
  }

  /** What handling one target does to a state: settled at home, restored from quarantine. */
  function Acted(fs: FS, u: Target): FS {
    if AtHome(fs, u) then Settle(fs, u) else if OnlyQuarantined(fs, u) then Restored(fs, u) else fs
  }

  function ActedImages(fs: FS, images: set<FS>, u: Target): set<FS> {
    if AtHome(fs, u) then SettledImages(fs, images, u) else if OnlyQuarantined(fs, u) then RestoredImages(fs, images, u)
      else images
  }

  function ActedOn(m: Medium, u: Target): Medium { Medium(Acted(m.fs, u), ActedImages(m.fs, m.images, u)) }

  /** fchmod and fsync of an object that is the same in all images act on each image. */
  lemma RemodeEach(fs: FS, images: set<FS>, u: Target)
    requires u.file in fs.inodes && forall im | im in images :: SameInode(fs, im, u.file)
    ensures forall im | im in images ::
      u.file in im.inodes && Chmodded(im, u.file, u.mode) in RemodedImages(fs, images, u)
    ensures forall im' | im' in RemodedImages(fs, images, u) :: exists im ::
      im in images && u.file in im.inodes && im' == Chmodded(im, u.file, u.mode)
  {
    forall im | im in images
      ensures u.file in im.inodes && Chmodded(im, u.file, u.mode) in RemodedImages(fs, images, u) {
      assert Chmodded(im, u.file, u.mode) in AfterChmod(images, u.file, u.mode);
    }
    forall im' | im' in RemodedImages(fs, images, u)
      ensures exists im :: im in images && u.file in im.inodes && im' == Chmodded(im, u.file, u.mode)
    {
      if im' in images {
        assert im'.inodes[u.file].mode == u.mode;
        assert Chmodded(im', u.file, u.mode).inodes == im'.inodes;
        assert im' == Chmodded(im', u.file, u.mode);
      }
    }
  }

  /** Restoring a target acts on each image; what survives agrees with the new state in the target's directories. */
  lemma RestoreEach(fs: FS, images: set<FS>, u: Target, im': FS) returns (im: FS)
    requires OnlyQuarantined(fs, u) && (forall im | im in images :: Untouched(fs, im, u))
      && im' in RestoredImages(fs, images, u)
    ensures im in images && OnlyQuarantined(im, u) && im' == Restored(im, u)
      && AgreeInDirectory(im', Restored(fs, u), QUARANTINE, u.dir)
  {
    var remoded, fs2 := RemodedImages(fs, images, u), Restored(fs, u);
    RemodeEach(fs, images, u);
    RestoredIsOriginal(fs, u);
    var mid :| mid in remoded
      && (im' == mid || (CanMove(mid, u.Quar(), u.Live())
        && (im' == Moved(mid, u.Quar(), u.Live()) || im' == Linked(mid, u.Quar(), u.Live()))));
    im :| im in images && u.file in im.inodes && mid == Chmodded(im, u.file, u.mode);
    UntouchedMeans(fs, im, u);
    GoneFromQuarantine(im', fs2, u);
  }

  lemma GoneFromQuarantine(im: FS, fs: FS, u: Target)
    requires AgreeInDirectory(im, fs, QUARANTINE, u.dir) && u.Quar() !in fs.names
    ensures u.Quar() !in im.names
  {
    assert u.Quar() in im.names ==> u.Quar() in im.names.Keys + fs.names.Keys;
  }

  /** Elsewhere than in the pending target's directory every image survives. */
  lemma RestoreSurvives(fs: FS, images: set<FS>, t: Target, u: Target, im: FS)
    requires OnlyQuarantined(fs, u) && (forall im | im in images :: Untouched(fs, im, u)) && im in images
    requires SameBut(im, fs, t) && (u.dir != t.dir || im == fs)
    ensures OnlyQuarantined(im, u) && Restored(im, u) in RestoredImages(fs, images, u)
  {
    RemodeEach(fs, images, u);
    UntouchedMeans(fs, im, u);
    RestoreReaches(fs, u);
    RestoreReaches(im, u);
    var mid, remoded := Chmodded(im, u.file, u.mode), RemodedImages(fs, images, u);
    assert mid in remoded && CanMove(mid, u.Quar(), u.Live()) && Restored(im, u) == Moved(mid, u.Quar(), u.Live());
    assert SameEntry(Restored(im, u), Restored(fs, u), u.Live())
      && SameEntry(Restored(im, u), Restored(fs, u), u.Quar());
    hide SameBut, Untouched, OnlyQuarantined, Original, Restored, Chmodded, RemodedImages, AgreeInDirectory;
    AgreeElsewhere(im, fs, Restored(im, u), Restored(fs, u), t, u);
    assert Restored(im, u) in AfterRename(remoded, u.Quar(), u.Live());
  }

  /** Two states that differ at one target, and agree at another one's names, agree in the other one's directories. */
  lemma AgreeElsewhere(a: FS, b: FS, a': FS, b': FS, t: Target, u: Target)
    requires SameBut(a, b, t) && (u.dir != t.dir || a == b)
    requires SameBut(a, a', u) && SameBut(b, b', u) && SameEntry(a', b', u.Live()) && SameEntry(a', b', u.Quar())
    ensures AgreeInDirectory(a', b', LIVE, u.dir) && AgreeInDirectory(a', b', QUARANTINE, u.dir)
  {
    forall s: Slot | s.dir == u.dir ensures SameEntry(a', b', s) {
      if s != u.Live() && s != u.Quar() {
        assert SameEntry(a, a', s) && SameEntry(b, b', s) && SameEntry(a, b, s);
      }
    }
  }

  lemma SettleEach(fs: FS, images: set<FS>, u: Target, im': FS) returns (im: FS)
    requires AtHome(fs, u) && (forall im | im in images :: Untouched(fs, im, u)) && im' in SettledImages(fs, images, u)
    ensures im in images && AtHome(im, u) && im' == Settle(im, u)
    ensures OnBoth(fs, u) ==> AgreeInDirectory(im', Settle(fs, u), QUARANTINE, u.dir)
  {
    var remoded := RemodedImages(fs, images, u);
    RemodeEach(fs, images, u);
    var mid :| mid in remoded
      && (im' == mid || (OnBoth(fs, u) && CanUnlink(mid, u.Quar()) && im' == Unlinked(mid, u.Quar())));
    im :| im in images && u.file in im.inodes && mid == Chmodded(im, u.file, u.mode);
    UntouchedMeans(fs, im, u);
    if OnBoth(fs, u) {
      SettleReaches(fs, u);
      GoneFromQuarantine(im', Settle(fs, u), u);
    }
  }

  lemma SettleSurvives(fs: FS, images: set<FS>, t: Target, u: Target, im: FS)
    requires AtHome(fs, u) && (forall im | im in images :: Untouched(fs, im, u)) && im in images
    requires SameBut(im, fs, t) && (OnlyLive(fs, u) || u.dir != t.dir || im == fs)
    ensures AtHome(im, u) && Settle(im, u) in SettledImages(fs, images, u)
  {
    RemodeEach(fs, images, u);
    UntouchedMeans(fs, im, u);
    OnePlace(fs, u);
    var mid, remoded := Chmodded(im, u.file, u.mode), RemodedImages(fs, images, u);
    assert mid in remoded;
    if OnBoth(fs, u) {
      SettleReaches(fs, u);
      SettleReaches(im, u);
      assert CanUnlink(mid, u.Quar()) && Settle(im, u) == Unlinked(mid, u.Quar());
      assert SameEntry(Settle(im, u), Settle(fs, u), u.Live()) && SameEntry(Settle(im, u), Settle(fs, u), u.Quar());
      hide SameBut, Untouched, OnBoth, OnlyLive, Original, Settle, Chmodded, RemodedImages, AgreeInDirectory;
      AgreeElsewhere(im, fs, Settle(im, u), Settle(fs, u), t, u);
      assert Settle(im, u) in AfterUnlink(remoded, u.Quar());
    }
  }

  /** Handling another target is handling it in each image; a directory fsync also ends what disagrees there. */
  lemma ActedEach(m: Medium, ts: seq<Target>, p: nat, i: nat, im': FS) returns (im: FS)
    requires p < |ts| && i < |ts| && i != p && Pending(m, ts, p) && im' in ActedImages(m.fs, m.images, ts[i])
    ensures im in m.images && im' == Acted(im, ts[i])
    ensures !OnlyLive(m.fs, ts[i]) ==> AgreeInDirectory(im', Acted(m.fs, ts[i]), QUARANTINE, ts[i].dir)
  {
    var u := ts[i];
    assert Reachable(m.fs, u);
    forall im | im in m.images ensures Untouched(m.fs, im, u) { PendingImage(m, ts, p, im); }
    OnePlace(m.fs, u);
    hide SameBut, Untouched, OnBoth, OnlyLive, OnlyQuarantined, Original, Settle, SettledImages, Restored,
      RestoredImages, AgreeInDirectory, Recoverable;
    if AtHome(m.fs, u) {
      im := SettleEach(m.fs, m.images, u, im');
    } else {
      im := RestoreEach(m.fs, m.images, u, im');
      UntouchedMeans(m.fs, im, u);
      OnePlace(im, u);
    }
  }

  lemma ActedSurvives(m: Medium, ts: seq<Target>, p: nat, i: nat, im: FS)
    requires p < |ts| && i < |ts| && i != p && Pending(m, ts, p) && im in m.images
    requires OnlyLive(m.fs, ts[i]) || ts[i].dir != ts[p].dir || im == m.fs
    ensures Acted(im, ts[i]) in ActedImages(m.fs, m.images, ts[i])
  {
    var u := ts[i];
    assert Reachable(m.fs, u);
    forall im | im in m.images ensures Untouched(m.fs, im, u) { PendingImage(m, ts, p, im); }
    PendingImage(m, ts, p, im);
    OnePlace(m.fs, u);
    OnePlace(im, u);
    UntouchedMeans(m.fs, im, u);
    hide SameBut, Untouched, OnBoth, OnlyLive, OnlyQuarantined, Original, Settle, SettledImages, Restored,
      RestoredImages, Recoverable;
    if AtHome(m.fs, u) {
      SettleSurvives(m.fs, m.images, ts[p], u, im);
    } else {
      RestoreSurvives(m.fs, m.images, ts[p], u, im);
    }
  }

  /** What handling a target does to a state: nothing to the others. */
  lemma ActedKeeps(fs: FS, ts: seq<Target>, i: nat, p: nat)
    requires i < |ts| && p < |ts| && i != p && DistinctFiles(ts) && Recoverable(fs, ts)
    ensures Recoverable(Acted(fs, ts[i]), ts) && Untouched(fs, Acted(fs, ts[i]), ts[p])
      && Original(Acted(fs, ts[i]), ts[i])
  {
    assert Reachable(fs, ts[i]);
    if AtHome(fs, ts[i]) {
      SettleStep(fs, ts, i);
      SettleTame(fs, ts, i);
    } else {
      RestoreStep(fs, ts, i);
      RestoreTame(fs, ts, i);
    }
    hide Untouched, OnBoth, OnlyLive, OnlyQuarantined, Original, Settle, Restored, Recoverable, DistinctFiles;
  }

  /** Handling one target in two states that differ at another one gives states that differ there. */
  lemma ActedAlike(a: FS, b: FS, t: Target, u: Target)
    requires SameBut(a, b, t) && Untouched(b, a, u) && Reachable(b, u)
    ensures SameBut(Acted(a, u), Acted(b, u), t)
  {
    UntouchedReachable(b, a, u);
    ActedReaches(a, u);
    ActedReaches(b, u);
    var a', b' := Acted(a, u), Acted(b, u);
    hide Acted, Reachable, Untouched;
    forall s | s != t.Live() && s != t.Quar() ensures SameEntry(a', b', s) {
      if s != u.Live() && s != u.Quar() { assert SameEntry(a, a', s) && SameEntry(b, b', s) && SameEntry(a, b, s); }
    }
    forall id | id != t.file ensures SameInode(a', b', id) {
      if id != u.file { assert SameInode(a, a', id) && SameInode(b, b', id) && SameInode(a, b, id); }
    }
  }

  lemma ActedReaches(fs: FS, u: Target)
    requires Reachable(fs, u)
    ensures Original(Acted(fs, u), u) && SameBut(fs, Acted(fs, u), u)
  {
    if AtHome(fs, u) { SettleReaches(fs, u); } else { RestoreReaches(fs, u); }
  }

  /** Some image lacks the target at its live name. */
  ghost predicate Astray(images: set<FS>, t: Target) { exists im :: im in images && !OnlyLive(im, t) }

  /** The torn state in every image. */
  ghost predicate Twofold(images: set<FS>, t: Target) { forall im | im in images :: OnBoth(im, t) }

  ghost predicate OneMode(m: Medium, t: Target) { forall im | im in m.images :: AgreeInMode(im, m.fs, t.file) }

  lemma AstrayBy(images: set<FS>, t: Target, im: FS)
    requires im in images && !OnlyLive(im, t)
    ensures Astray(images, t)
  {
  }

  /** A step on another target keeps the one pending, and what is pending about it, except that a directory fsync in its
      own directory brings every image to the current names. */
  lemma OtherStep(m: Medium, ts: seq<Target>, p: nat, i: nat)
    requires p < |ts| && i < |ts| && i != p && Pending(m, ts, p) && OnlyLive(m.fs, ts[p])
    ensures Pending(ActedOn(m, ts[i]), ts, p) && OnlyLive(ActedOn(m, ts[i]).fs, ts[p])
    ensures Astray(ActedOn(m, ts[i]).images, ts[p]) <==>
      Astray(m.images, ts[p]) && (OnlyLive(m.fs, ts[i]) || ts[i].dir != ts[p].dir)
    ensures OneMode(m, ts[p]) ==> OneMode(ActedOn(m, ts[i]), ts[p])
  {
    var t, u, m' := ts[p], ts[i], ActedOn(m, ts[i]);
    ActedKeeps(m.fs, ts, i, p);
    UntouchedMeans(m.fs, m'.fs, t);
    PendingStep(m, ts, p, i);
    hide Pending, OnlyLive, Untouched, Acted, ActedImages;
    if Astray(m.images, t) && (OnlyLive(m.fs, u) || u.dir != t.dir) {
      var im :| im in m.images && !OnlyLive(im, t);
      ActedSurvives(m, ts, p, i, im);
      ImageKeeps(m, ts, p, i, im);
      AstrayBy(m'.images, t, Acted(im, u));
    }
    if Astray(m'.images, t) {
      var im' :| im' in m'.images && !OnlyLive(im', t);
      var im := ActedEach(m, ts, p, i, im');
      ImageKeeps(m, ts, p, i, im);
      AstrayBy(m.images, t, im);
      if u.dir == t.dir && !OnlyLive(m.fs, u) { Cleared(im', m'.fs, t); }
    }
  }

  lemma ImageKeeps(m: Medium, ts: seq<Target>, p: nat, i: nat, im: FS)
    requires p < |ts| && i < |ts| && i != p && Pending(m, ts, p) && im in m.images
    ensures Untouched(im, Acted(im, ts[i]), ts[p]) && Reachable(Acted(im, ts[i]), ts[p])
    ensures OnlyLive(im, ts[p]) <==> OnlyLive(Acted(im, ts[i]), ts[p])
    ensures OnBoth(im, ts[p]) <==> OnBoth(Acted(im, ts[i]), ts[p])
  {
    PendingImage(m, ts, p, im);
    ActedKeeps(im, ts, i, p);
    UntouchedMeans(im, Acted(im, ts[i]), ts[p]);
    UntouchedReachable(im, Acted(im, ts[i]), ts[p]);
  }

  lemma PendingStep(m: Medium, ts: seq<Target>, p: nat, i: nat)
    requires p < |ts| && i < |ts| && i != p && Pending(m, ts, p)
    ensures Pending(ActedOn(m, ts[i]), ts, p)
    ensures forall im' | im' in ActedOn(m, ts[i]).images :: Reachable(im', ts[p])
    ensures OneMode(m, ts[p]) ==> OneMode(ActedOn(m, ts[i]), ts[p])
    ensures Twofold(m.images, ts[p]) ==> Twofold(ActedOn(m, ts[i]).images, ts[p])
  {
    var t, u, m' := ts[p], ts[i], ActedOn(m, ts[i]);
    ActedKeeps(m.fs, ts, i, p);
    ActedSurvives(m, ts, p, i, m.fs);
    assert Reachable(m.fs, u);
    hide SameBut, OnlyLive, OnlyQuarantined, OnBoth, Untouched, Acted, ActedImages, Reachable, Recoverable,
      DistinctFiles;
    forall im' | im' in m'.images
      ensures SameBut(im', m'.fs, t) && Reachable(im', t) && (OneMode(m, t) ==> AgreeInMode(im', m'.fs, t.file))
      ensures Twofold(m.images, t) ==> OnBoth(im', t)
    {
      var im := ActedEach(m, ts, p, i, im');
      ImageKeeps(m, ts, p, i, im);
      PendingImage(m, ts, p, im);
      ActedAlike(im, m.fs, t, u);
      if OneMode(m, t) { ModesKept(im, m.fs, im', m'.fs, t); }
    }
  }

  lemma ModesKept(a: FS, b: FS, a': FS, b': FS, t: Target)
    requires AgreeInMode(a, b, t.file) && Untouched(a, a', t) && Untouched(b, b', t)
    ensures AgreeInMode(a', b', t.file)
  {
  }

  /** Agreeing on the quarantine directory with a state that has the target at home only. */
  lemma Cleared(im: FS, fs: FS, t: Target)
    requires AgreeInDirectory(im, fs, QUARANTINE, t.dir) && OnlyLive(fs, t) && Reachable(im, t)
    ensures OnlyLive(im, t)
  {
    GoneFromQuarantine(im, fs, t);
  }

  lemma ChmodLive(im: FS, t: Target)
    requires Reachable(im, t)
    ensures t.file in im.inodes && Reachable(Chmodded(im, t.file, t.mode), t)
    ensures OnlyLive(im, t) <==> OnlyLive(Chmodded(im, t.file, t.mode), t)
  {
  }

  /** What an image is after fchmod and fsync of the object. */
  lemma RemodedFrom(fs: FS, images: set<FS>, t: Target, im': FS) returns (im: FS)
    requires t.file in fs.inodes && im' in RemodedImages(fs, images, t)
    ensures im in images && (im' == im || (t.file in im.inodes && im' == Chmodded(im, t.file, t.mode)))
    ensures AgreeInMode(im', Chmodded(fs, t.file, t.mode), t.file)
  {
    im :| im in images && (im' == im || (t.file in im.inodes && im' == Chmodded(im, t.file, t.mode)));
  }

  lemma Remoded(fs: FS, images: set<FS>, t: Target, im: FS)
    requires t.file in fs.inodes && im in images && t.file in im.inodes
    ensures Chmodded(im, t.file, t.mode) in RemodedImages(fs, images, t)
  {
    assert Chmodded(im, t.file, t.mode) in AfterChmod(images, t.file, t.mode);
  }

  /** Settling the pending target itself where only its live name leads to it: no directory is synced. */
  lemma OwnStep(m: Medium, ts: seq<Target>, p: nat)
    requires p < |ts| && Pending(m, ts, p) && OnlyLive(m.fs, ts[p])
    ensures Pending(ActedOn(m, ts[p]), ts, p) && OnlyLive(ActedOn(m, ts[p]).fs, ts[p])
      && OneMode(ActedOn(m, ts[p]), ts[p])
    ensures Astray(ActedOn(m, ts[p]).images, ts[p]) <==> Astray(m.images, ts[p])
  {
    var t, m' := ts[p], ActedOn(m, ts[p]);
    OwnPending(m, ts, p);
    OnePlace(m.fs, t);
    assert t.file in m.fs.inodes && m'.images == RemodedImages(m.fs, m.images, t)
      && m'.fs == Chmodded(m.fs, t.file, t.mode);
    ChmodLive(m.fs, t);
    hide Pending, ActedOn, OnlyLive, Reachable, RemodedImages, Chmodded, AgreeInMode;
    forall im' | im' in m'.images ensures AgreeInMode(im', m'.fs, t.file) {
      var _ := RemodedFrom(m.fs, m.images, t, im');
    }
    if Astray(m.images, t) {
      var im :| im in m.images && !OnlyLive(im, t);
      PendingImage(m, ts, p, im);
      ChmodLive(im, t);
      Remoded(m.fs, m.images, t, im);
      AstrayBy(m'.images, t, Chmodded(im, t.file, t.mode));
    }
    if Astray(m'.images, t) {
      var im' :| im' in m'.images && !OnlyLive(im', t);
      var im := RemodedFrom(m.fs, m.images, t, im');
      PendingImage(m, ts, p, im);
      ChmodLive(im, t);
      AstrayBy(m.images, t, im);
    }
  }

  lemma OwnPending(m: Medium, ts: seq<Target>, p: nat)
    requires p < |ts| && Pending(m, ts, p) && OnlyLive(m.fs, ts[p])
    ensures Pending(ActedOn(m, ts[p]), ts, p)
  {
    var t, m' := ts[p], ActedOn(m, ts[p]);
    SettleStep(m.fs, ts, p);
    SettleTame(m.fs, ts, p);
    OriginalReachable(m'.fs, t);
    OnePlace(m.fs, t);
    PendingChmod(m.fs, m.images, t, t.mode);
    RemodeHere(m.fs, m.images, t);
    hide SameBut, Untouched, OnlyLive, OnBoth, OnlyQuarantined, Original, AfterChmod, DistinctFiles;
  }

  lemma RemodeHere(fs: FS, images: set<FS>, t: Target)
    requires t.file in fs.inodes && fs in images
    ensures RemodedImages(fs, images, t) <= AfterChmod(images, t.file, t.mode)
    ensures Chmodded(fs, t.file, t.mode) in RemodedImages(fs, images, t)
  {
    Remoded(fs, images, t, fs);
  }

  /** Handling the pending target itself from any other place ends what is pending. */
  lemma OwnStepSettles(m: Medium, ts: seq<Target>, p: nat)
    requires p < |ts| && Pending(m, ts, p) && !OnlyLive(m.fs, ts[p])
      && (OnBoth(m.fs, ts[p]) ==> Twofold(m.images, ts[p]))
    ensures ActedOn(m, ts[p]).images == {ActedOn(m, ts[p]).fs}
  {
    var t := ts[p];
    assert Reachable(m.fs, t);
    OnePlace(m.fs, t);
    if OnBoth(m.fs, t) {
      TornSettles(m.fs, m.images, t);
    } else {
      RestoreSettlesAll(m.fs, m.images, t);
    }
  }

  lemma TornSettles(fs: FS, images: set<FS>, t: Target)
    requires PendingOnly(fs, images, t) && OnBoth(fs, t) && Twofold(images, t)
    ensures SettledImages(fs, images, t) == {Settle(fs, t)}
  {
    var fs1, remoded := Chmodded(fs, t.file, t.mode), RemodedImages(fs, images, t);
    PendingChmod(fs, images, t, t.mode);
    ChmodKeeps(fs, t, t.mode);
    forall im | im in remoded ensures im == fs1 {
      var pre :| pre in images && (im == pre || (t.file in pre.inodes && im == Chmodded(pre, t.file, t.mode)));
      SameState(im, fs1, t);
    }
    assert fs1 in remoded;
    assert remoded == {fs1};
    UnlinkSettles(fs1, t);
  }

  lemma ActedSettles(m: Medium, u: Target)
    requires m.images == {m.fs}
    ensures ActedOn(m, u).images == {ActedOn(m, u).fs}
  {
    SettleSettles(m.fs, u);
    RestoreSettlesAll(m.fs, m.images, u);
    hide AtHome, OnlyQuarantined, SettledImages, RestoredImages, Settle, Restored;
  }

  // ----- The whole run with one target pending -----

  lemma ForwardStep(m: Medium, ts: seq<Target>, n: nat)
    requires 0 < n <= |ts| && DistinctFiles(ts) && Recoverable(m.fs, ts)
    ensures var q, u := Forward(m, ts, n - 1), ts[n - 1];
      && Forward(m, ts, n) == (if OnlyQuarantined(m.fs, u) then q else ActedOn(q, u))
      && (OnlyLive(q.fs, u) <==> OnlyLive(m.fs, u)) && (OnBoth(q.fs, u) <==> OnBoth(m.fs, u))
      && (OnlyQuarantined(m.fs, u) ==> !OnlyLive(m.fs, u) && !OnBoth(m.fs, u))
  {
    var q, u := Forward(m, ts, n - 1), ts[n - 1];
    ForwardUntouched(m, ts, n - 1, n - 1);
    UntouchedMeans(m.fs, q.fs, u);
    WaitsIff(m, ts, n - 1);
    OnePlace(m.fs, u);
    hide Untouched, OnlyLive, OnBoth, OnlyQuarantined, Settle, SettledImages, Recoverable, DistinctFiles;
  }

  lemma BackwardStep(m: Medium, ts: seq<Target>, n: nat)
    requires n < |ts| && DistinctFiles(ts) && Recoverable(m.fs, ts)
    ensures Backward(m, ts, n).Some? && Backward(m, ts, n + 1).Some?
    ensures var q, u := Backward(m, ts, n + 1).value, ts[n];
      && Backward(m, ts, n).value == (if OnlyQuarantined(m.fs, u) then ActedOn(q, u) else q)
      && (OnlyQuarantined(m.fs, u) ==> OnlyQuarantined(q.fs, u) && !OnlyLive(q.fs, u))
  {
    BackwardFinds(m, ts, n);
    BackwardFinds(m, ts, n + 1);
    WaitsIff(m, ts, n);
    var q, u := Backward(m, ts, n + 1).value, ts[n];
    OnePlace(q.fs, u);
    if OnlyQuarantined(m.fs, u) { assert OnlyQuarantined(q.fs, u); NotHome(q.fs, u); }
    hide Untouched, OnlyLive, OnBoth, OnlyQuarantined, Restored, RestoredImages, Recoverable, DistinctFiles, Waits,
      Forward;
  }

  lemma NotHome(fs: FS, u: Target)
    requires OnlyQuarantined(fs, u)
    ensures !OnlyLive(fs, u)
  {
  }

  /** Some target of that directory was found elsewhere than only at home. */
  ghost predicate SyncedBy(m: Medium, ts: seq<Target>, p: nat, k: nat) requires p < |ts| && k < |ts| {
    ts[k].dir == ts[p].dir && !OnlyLive(m.fs, ts[k])
  }

  /** No directory fsync of the first `n` targets, or of the waiting ones from `n` on, fell into the pending one's
      directory. */
  ghost predicate UnsyncedBefore(m: Medium, ts: seq<Target>, p: nat, n: nat) requires p < |ts| && n <= |ts| {
    forall k | 0 <= k < n && !OnlyQuarantined(m.fs, ts[k]) :: !SyncedBy(m, ts, p, k)
  }

  ghost predicate UnsyncedFrom(m: Medium, ts: seq<Target>, p: nat, n: nat) requires p < |ts| && n <= |ts| {
    forall k | n <= k < |ts| && OnlyQuarantined(m.fs, ts[k]) :: !SyncedBy(m, ts, p, k)
  }

  lemma UnsyncedSteps(m: Medium, ts: seq<Target>, p: nat, n: nat)
    requires p < |ts| && n < |ts|
    ensures UnsyncedBefore(m, ts, p, n + 1) <==>
      UnsyncedBefore(m, ts, p, n) && (OnlyQuarantined(m.fs, ts[n]) || !SyncedBy(m, ts, p, n))
    ensures UnsyncedFrom(m, ts, p, n) <==>
      UnsyncedFrom(m, ts, p, n + 1) && (!OnlyQuarantined(m.fs, ts[n]) || !SyncedBy(m, ts, p, n))
    ensures UnsyncedBefore(m, ts, p, 0) && UnsyncedFrom(m, ts, p, |ts|)
  {
    hide OnlyQuarantined, SyncedBy;
  }

  lemma PendingMeans(m: Medium, ts: seq<Target>, p: nat)
    requires p < |ts| && Pending(m, ts, p)
    ensures DistinctFiles(ts) && Recoverable(m.fs, ts)
  {
  }

  lemma SyncedMeans(m: Medium, ts: seq<Target>, p: nat, k: nat)
    requires p < |ts| && k < |ts|
    ensures SyncedBy(m, ts, p, k) <==> ts[k].dir == ts[p].dir && !OnlyLive(m.fs, ts[k])
    ensures OnlyQuarantined(m.fs, ts[k]) ==> !OnlyLive(m.fs, ts[k])
  {
  }

  /** The pending target is at home throughout; `unsynced` says whether an image that lacks it may still be there. */
  ghost predicate AtHomeStill(m: Medium, ts: seq<Target>, p: nat, q: Medium, handled: bool, unsynced: bool)
    requires p < |ts| {
    && Pending(q, ts, p) && OnlyLive(q.fs, ts[p]) && (handled ==> OneMode(q, ts[p]))
    && (Astray(q.images, ts[p]) <==> Astray(m.images, ts[p]) && unsynced)
  }

  lemma HomeTurn(m: Medium, ts: seq<Target>, p: nat, q: Medium, i: nat, handled: bool, unsynced: bool)
    requires p < |ts| && i < |ts| && AtHomeStill(m, ts, p, q, handled, unsynced)
    ensures AtHomeStill(m, ts, p, ActedOn(q, ts[i]), handled
      || i == p, unsynced && (OnlyLive(q.fs, ts[i]) || ts[i].dir != ts[p].dir))
  {
    hide OnlyLive, ActedOn, Pending, Astray, OneMode;
    if i == p { OwnStep(q, ts, p); } else { OtherStep(q, ts, p, i); }
  }

  lemma HomeStart(m: Medium, ts: seq<Target>, p: nat)
    requires p < |ts| && Pending(m, ts, p) && OnlyLive(m.fs, ts[p])
    ensures Forward(m, ts, 0) == m && AtHomeStill(m, ts, p, m, false, UnsyncedBefore(m, ts, p, 0))
  {
    UnsyncedSteps(m, ts, p, 0);
    hide OnlyLive, OnlyQuarantined, Pending, SyncedBy, UnsyncedBefore, Astray, OneMode;
  }

  lemma BackwardNone(m: Medium, ts: seq<Target>)
    ensures Backward(m, ts, |ts|) == Some(Forward(m, ts, |ts|))
  {
  }

  lemma {:induction false} ForwardAstray(m: Medium, ts: seq<Target>, p: nat, n: nat)
    requires p < |ts| && n <= |ts| && Pending(m, ts, p) && OnlyLive(m.fs, ts[p])
    ensures AtHomeStill(m, ts, p, Forward(m, ts, n), p < n, UnsyncedBefore(m, ts, p, n))
  {
    hide *;
    if n > 0 {
      PendingMeans(m, ts, p);
      ForwardAstray(m, ts, p, n - 1);
      ForwardStep(m, ts, n);
      UnsyncedSteps(m, ts, p, n - 1);
      SyncedMeans(m, ts, p, n - 1);
      HomeTurn(m, ts, p, Forward(m, ts, n - 1), n - 1, p < n - 1, UnsyncedBefore(m, ts, p, n - 1));
    } else {
      HomeStart(m, ts, p);
    }
  }

  lemma {:induction false} BackwardAstray(m: Medium, ts: seq<Target>, p: nat, n: nat)
    requires p < |ts| && n <= |ts| && Pending(m, ts, p) && OnlyLive(m.fs, ts[p])
    ensures Backward(m, ts, n).Some?
    ensures AtHomeStill(m, ts, p, Backward(m, ts, n).value, true, UnsyncedBefore(m, ts, p, |ts|)
      && UnsyncedFrom(m, ts, p, n))
    decreases |ts| - n
  {
    hide *;
    if n < |ts| {
      PendingMeans(m, ts, p);
      BackwardAstray(m, ts, p, n + 1);
      BackwardStep(m, ts, n);
      UnsyncedSteps(m, ts, p, n);
      SyncedMeans(m, ts, p, n);
      HomeTurn(m, ts, p, Backward(m, ts, n + 1).value, n, true, UnsyncedBefore(m, ts, p, |ts|)
        && UnsyncedFrom(m, ts, p, n + 1));
    } else {
      ForwardAstray(m, ts, p, n);
      UnsyncedSteps(m, ts, p, 0);
      BackwardNone(m, ts);
    }
  }

  ghost predicate Still(m: Medium) { m.images == {m.fs} }

  /** One target handled while another one, or the same one anywhere but at home, is pending. */
  lemma ElsewhereStep(q: Medium, ts: seq<Target>, p: nat, i: nat)
    requires p < |ts| && i < |ts|
    ensures Still(q) ==> Still(ActedOn(q, ts[i]))
    ensures Pending(q, ts, p) && i != p ==>
      Pending(ActedOn(q, ts[i]), ts, p) && (Twofold(q.images, ts[p]) ==> Twofold(ActedOn(q, ts[i]).images, ts[p]))
    ensures
      Pending(q, ts, p) && i == p && !OnlyLive(q.fs, ts[p]) && (OnBoth(q.fs, ts[p]) ==> Twofold(q.images, ts[p])) ==>
        Still(ActedOn(q, ts[p]))
  {
    hide OnlyLive, OnBoth, ActedOn, Pending, Twofold;
    if Still(q) { ActedSettles(q, ts[i]); }
    if Pending(q, ts, p) && i != p { PendingStep(q, ts, p, i); }
    if Pending(q, ts, p) && i == p && !OnlyLive(q.fs, ts[p]) && (OnBoth(q.fs, ts[p]) ==> Twofold(q.images, ts[p])) {
      OwnStepSettles(q, ts, p);
    }
  }

  /** The pending target is elsewhere until it is handled; afterwards nothing is pending. */
  ghost predicate ElsewhereStill(m: Medium, ts: seq<Target>, p: nat, q: Medium, handled: bool) requires p < |ts| {
    if handled then Still(q) else Pending(q, ts, p) && (OnBoth(m.fs, ts[p]) ==> Twofold(q.images, ts[p]))
  }

  lemma ElsewhereTurn(m: Medium, ts: seq<Target>, p: nat, q: Medium, i: nat, handled: bool)
    requires p < |ts| && i < |ts| && ElsewhereStill(m, ts, p, q, handled)
    requires i == p ==> !OnlyLive(q.fs, ts[p]) && (OnBoth(q.fs, ts[p]) ==> OnBoth(m.fs, ts[p]))
    ensures ElsewhereStill(m, ts, p, ActedOn(q, ts[i]), handled || i == p)
  {
    hide OnlyLive, OnBoth, ActedOn, Pending, Twofold, Still;
    ElsewhereStep(q, ts, p, i);
  }

  lemma ElsewhereStart(m: Medium, ts: seq<Target>, p: nat)
    requires p < |ts| && Pending(m, ts, p) && (OnBoth(m.fs, ts[p]) ==> Twofold(m.images, ts[p]))
    ensures Forward(m, ts, 0) == m && ElsewhereStill(m, ts, p, m, false)
  {
    hide OnBoth, Pending, Twofold;
  }

  /** From any other place of the pending target, nothing is pending once it was handled. */
  lemma {:induction false} ForwardElsewhere(m: Medium, ts: seq<Target>, p: nat, n: nat)
    requires p < |ts| && n <= |ts| && Pending(m, ts, p) && !OnlyLive(m.fs, ts[p])
      && (OnBoth(m.fs, ts[p]) ==> Twofold(m.images, ts[p]))
    ensures ElsewhereStill(m, ts, p, Forward(m, ts, n), p < n && !OnlyQuarantined(m.fs, ts[p]))
  {
    hide *;
    if n > 0 {
      PendingMeans(m, ts, p);
      ForwardElsewhere(m, ts, p, n - 1);
      ForwardStep(m, ts, n);
      if !OnlyQuarantined(m.fs, ts[n - 1]) {
        ElsewhereTurn(m, ts, p, Forward(m, ts, n - 1), n - 1, p < n - 1 && !OnlyQuarantined(m.fs, ts[p]));
      }
    } else {
      ElsewhereStart(m, ts, p);
    }
  }

  lemma {:induction false} BackwardElsewhere(m: Medium, ts: seq<Target>, p: nat, n: nat)
    requires p < |ts| && n <= |ts| && Pending(m, ts, p) && !OnlyLive(m.fs, ts[p])
      && (OnBoth(m.fs, ts[p]) ==> Twofold(m.images, ts[p]))
    ensures Backward(m, ts, n).Some?
    ensures ElsewhereStill(m, ts, p, Backward(m, ts, n).value, n <= p || !OnlyQuarantined(m.fs, ts[p]))
    decreases |ts| - n
  {
    hide *;
    if n < |ts| {
      PendingMeans(m, ts, p);
      BackwardElsewhere(m, ts, p, n + 1);
      BackwardStep(m, ts, n);
      if OnlyQuarantined(m.fs, ts[n]) {
        NotTorn(Backward(m, ts, n + 1).value.fs, ts[n]);
        ElsewhereTurn(m, ts, p, Backward(m, ts, n + 1).value, n, n + 1 <= p || !OnlyQuarantined(m.fs, ts[p]));
      }
    } else {
      ForwardElsewhere(m, ts, p, n);
      BackwardNone(m, ts);
    }
  }

  lemma NotTorn(fs: FS, u: Target)
    requires OnlyQuarantined(fs, u)
    ensures !OnBoth(fs, u)
  {
  }

  /** After a power loss at this point every target would still be original. */
  ghost predicate Durable(m: Medium, ts: seq<Target>) { forall im | im in m.images :: AllOriginal(im, ts) }

  /** When one target's changes are still pending, a successful reconcile is durable exactly unless that target was found at
      its live name alone, some image lacks it there, and no other target of its directory had to be brought back: then no
      directory fsync covers its name. */
  lemma ReconcileDurableIff(m: Medium, ts: seq<Target>, p: nat)
    requires p < |ts| && DistinctFiles(ts) && Bound(m.fs, m.images, ts) && PendingOnly(m.fs, m.images, ts[p])
    ensures Backward(m, ts, 0).Some?
    ensures Durable(Backward(m, ts, 0).value, ts) <==>
      || !OnlyLive(m.fs, ts[p])
      || (exists k | 0 <= k < |ts| :: SyncedBy(m, ts, p, k))
      || forall im | im in m.images :: OnlyLive(im, ts[p])
  {
    DurableStart(m, ts, p);
    BackwardFinds(m, ts, 0);
    BackwardTame(m, ts, 0);
    if OnlyLive(m.fs, ts[p]) {
      DurableAtHome(m, ts, p);
    } else {
      BackwardElsewhere(m, ts, p, 0);
      hide Backward, OnlyLive, OnlyQuarantined, OnBoth, Pending, SyncedBy, Original, Bound, PendingOnly, DistinctFiles;
    }
  }

  lemma DurableStart(m: Medium, ts: seq<Target>, p: nat)
    requires p < |ts| && DistinctFiles(ts) && Bound(m.fs, m.images, ts) && PendingOnly(m.fs, m.images, ts[p])
    ensures Pending(m, ts, p) && Recoverable(m.fs, ts) && Tame(m.fs, ts)
      && (OnBoth(m.fs, ts[p]) ==> Twofold(m.images, ts[p]))
  {
  }

  lemma DurableAtHome(m: Medium, ts: seq<Target>, p: nat)
    requires p < |ts| && Pending(m, ts, p) && OnlyLive(m.fs, ts[p]) && Backward(m, ts, 0).Some?
    requires AllOriginal(Backward(m, ts, 0).value.fs, ts)
    ensures Durable(Backward(m, ts, 0).value, ts) <==>
      (exists k | 0 <= k < |ts| :: SyncedBy(m, ts, p, k)) || forall im | im in m.images :: OnlyLive(im, ts[p])
  {
    hide Backward, OnlyLive, OnlyQuarantined, Pending, SyncedBy, Original, OneMode, AllOriginal, Durable;
    BackwardAstray(m, ts, p, 0);
    DurableIs(Backward(m, ts, 0).value, ts, p);
  }

  lemma DurableIs(q: Medium, ts: seq<Target>, p: nat)
    requires p < |ts| && Pending(q, ts, p) && OneMode(q, ts[p]) && AllOriginal(q.fs, ts)
    ensures Durable(q, ts) <==> !Astray(q.images, ts[p])
  {
    assert Original(q.fs, ts[p]);
    if !Astray(q.images, ts[p]) {
      forall im, k | im in q.images && 0 <= k < |ts| ensures Original(im, ts[k]) {
        assert Original(q.fs, ts[k]);
        PendingImage(q, ts, p, im);
        if k != p { UntouchedMeans(q.fs, im, ts[k]); } else { assert AgreeInMode(im, q.fs, ts[p].file); }
      }
    }
    if Durable(q, ts) {
      forall im | im in q.images ensures OnlyLive(im, ts[p]) { assert Original(im, ts[p]); }
    }
  }
}
