/** Several processes in a row over one machine: what an operator gets from the helper's modes
    when any of them may fail or crash at any system call. */
module Recovery {
  import opened Disk
  import opened Targets
  import opened Transaction
  import opened Durability

  /** Directories the helper needs for a follow-up mode. */
  ghost predicate Mounted(ts: seq<Target>, device: nat, live: map<seq<string>, FileId>, quar: map<seq<string>, nat>) {
    forall i | 0 <= i < |ts| ::
      && ts[i].dir in live && live[ts[i].dir] == ts[i].parent
      && ts[i].dir in quar && quar[ts[i].dir] == device
  }

  /** What an operator may run once BEGIN is journalled. */
  datatype Mode = ROLLBACK | RECONCILE | OBSERVE(quarantined: bool)

  /** Any sequence of rollback, reconcile and observation runs, each of which may fail or crash anywhere, never leaves
      the recoverable states; and an undisturbed reconcile run afterwards ends with every target exact at its live name,
      with its bound mode and bytes, and with nothing at its quarantine name. */
  method RecoverRepeatedly(machine: Machine, ts: seq<Target>, device: nat,
                           live: map<seq<string>, FileId>, quar: map<seq<string>, nat>, runs: seq<Mode>)
    returns (r: Try<State>, ghost calm: bool)
    requires Bound(machine.fs, machine.images, ts) && DistinctFiles(ts) && Mounted(ts, device, live, quar)
    modifies machine
    ensures Bound(machine.fs, machine.images, ts)
    ensures r.Value? ==> AllOriginal(machine.fs, ts)
    ensures calm ==> r == Value(ORIGINAL_EXACT_RECONCILED)
    ensures old(machine.Calm()) && runs == [] ==> calm
  {
    for k := 0 to |runs|
      invariant Bound(machine.fs, machine.images, ts)
      invariant runs == [] ==> machine.clock == old(machine.clock)
    {
      var _ := RunOnce(machine, ts, device, live, quar, runs[k]);
    }
    var helper := new Helper(machine, ts, device, live, quar);
    assert helper.Safe();
    calm := machine.Calm();
    assert helper.ParentsBound();
    r := helper.ReconcileRollback();
    assert helper.Safe();
  }

  /** One follow-up process. */
  method RunOnce(machine: Machine, ts: seq<Target>, device: nat,
                 live: map<seq<string>, FileId>, quar: map<seq<string>, nat>, mode: Mode)
    returns (r: Try<State>)
    requires Bound(machine.fs, machine.images, ts) && DistinctFiles(ts)
    modifies machine
    ensures Bound(machine.fs, machine.images, ts)
    ensures r.Value? ==> if mode == OBSERVE(true) then AllQuarantined(machine.fs, ts) else AllOriginal(machine.fs, ts)
  {
    var helper := new Helper(machine, ts, device, live, quar);
    assert helper.Safe();
    match mode {
      case ROLLBACK => r := helper.RollbackTransaction();
      case RECONCILE => r := helper.ReconcileRollback();
      case OBSERVE(quarantined) => r := helper.ObserveState(quarantined);
    }
    assert helper.Safe();
  }

  /** Apply, crashed or failed or committed, then any runs: once the BEGIN row is written, the original state comes back,
      whatever happened in between. */
  method ApplyThenRecover(machine: Machine, ts: seq<Target>, device: nat,
                          live: map<seq<string>, FileId>, quar: map<seq<string>, nat>, runs: seq<Mode>)
    returns (ghost begun: bool, r: Try<State>, ghost calm: bool)
    requires machine.Settled()
    modifies machine
    ensures !begun ==> machine.fs == old(machine.fs) && machine.Settled()
    ensures begun ==> Bound(machine.fs, machine.images, ts) && AllOriginal(old(machine.fs), ts)
    ensures begun && r.Value? ==> AllOriginal(machine.fs, ts)
    ensures begun && calm ==> r == Value(ORIGINAL_EXACT_RECONCILED)
  {
    var helper := new Helper(machine, ts, device, live, quar);
    r := helper.ApplyTransaction();
    begun, calm := helper.journal != [], false;
    if helper.journal != [] {
      assert helper.Safe() && helper.ParentsBound();
      var quarantineDirs := helper.quarantineDirs;
      assert Mounted(ts, device, live, quarantineDirs);
      r, calm := RecoverRepeatedly(machine, ts, device, live, quarantineDirs, runs);
    }
  }

  /** Rollback after a committed apply restores the exact state before it. */
  method ApplyThenRollback(machine: Machine, ts: seq<Target>, device: nat,
                           live: map<seq<string>, FileId>, quar: map<seq<string>, nat>)
    returns (applied: Try<State>, rolledBack: Try<State>)
    requires machine.Settled()
    modifies machine
    ensures applied.Value? && rolledBack.Value? ==> machine.fs == old(machine.fs) && machine.Settled()
    ensures old(machine.Calm()) ==> (applied.Value? ==> rolledBack.Value?)
  {
    var helper := new Helper(machine, ts, device, live, quar);
    applied := helper.ApplyTransaction();
    rolledBack := applied;
    if applied.Value? {
      assert helper.Safe() && helper.ParentsBound();
      var undo := new Helper(machine, ts, device, live, helper.quarantineDirs);
      RollbackInvertsApply(old(machine.fs), ts, 0);
      assert forall i | 0 <= i < |ts| :: helper.ParentBound(ts[i]) ==> undo.ParentBound(ts[i]);
      rolledBack := undo.RollbackTransaction();
    }
  }

  /** Two rows for one name with different modes: reconcile prints its success line although the first row is not exact.
      Such a manifest passes the parser, but no run of apply persists it, since prepare_live refuses a repeated object. */
  method AliasesReported(machine: Machine, t: Target, mode: nat, device: nat,
                         live: map<seq<string>, FileId>, quar: map<seq<string>, nat>)
    returns (r: Try<State>)
    requires machine.Settled() && machine.Calm() && Original(machine.fs, t) && Mounted([t], device, live, quar)
    requires t.mode == QUARANTINE_MODE && mode != t.mode
    modifies machine
    ensures r == Value(ORIGINAL_EXACT_RECONCILED) && !AllOriginal(machine.fs, [t, t.(mode := mode)])
  {
    var ts := [t, t.(mode := mode)];
    var helper := new Helper(machine, ts, device, live, quar);
    AliasesDefeatEachOther(machine.fs, t, mode);
    assert [t][0] == t;
    assert forall i | 0 <= i < |ts| :: helper.ParentBound(ts[i]);
    assert helper.ParentsBound();
    r := helper.ReconcileRollback();
    assert ts[0] == t;
  }

  /** Reconcile after a run that left one target's changes pending and no power loss: when its success line survives one. */
  method ReconcilePending(machine: Machine, ts: seq<Target>, device: nat,
                          live: map<seq<string>, FileId>, quar: map<seq<string>, nat>, ghost p: nat)
    returns (r: Try<State>)
    requires p < |ts| && DistinctFiles(ts) && Bound(machine.fs, machine.images, ts)
      && PendingOnly(machine.fs, machine.images, ts[p])
    requires Mounted(ts, device, live, quar)
    modifies machine
    ensures old(machine.Calm()) ==> r.Value?
    ensures r.Value? ==> r.value == ORIGINAL_EXACT_RECONCILED && AllOriginal(machine.fs, ts)
    ensures r.Value? ==> (Durable(Medium(machine.fs, machine.images), ts) <==>
      || !OnlyLive(old(machine.fs), ts[p])
      || (exists k | 0 <= k < |ts| :: ts[k].dir == ts[p].dir && !OnlyLive(old(machine.fs), ts[k]))
      || forall im | im in old(machine.images) :: OnlyLive(im, ts[p]))
  {
    var helper := new Helper(machine, ts, device, live, quar);
    ghost var start := Medium(machine.fs, machine.images);
    ReconcileDurableIff(start, ts, p);
    assert forall k | 0 <= k < |ts| :: SyncedBy(start, ts, p, k) <==>
      ts[k].dir == ts[p].dir && !OnlyLive(start.fs, ts[k]);
    hide Bound, PendingOnly, OnlyLive, DistinctFiles, Original, Durable, SyncedBy, Backward;
    assert helper.Now() == start && helper.Safe();
    assert helper.ParentsBound();
    r := helper.ReconcileRollback();
  }

  /** A file is renamed back, as by a rollback killed before its directory fsyncs, and reconcile runs without a power loss:
      it succeeds, although a power loss may still take the file back to quarantine. */
  method ReconcileUndurable(machine: Machine, t: Target, device: nat, live: map<seq<string>, FileId>,
    quar: map<seq<string>, nat>)
    returns (r: Try<State>)
    requires machine.Settled() && machine.Calm() && Mounted([t], device, live, quar)
    requires OnlyQuarantined(machine.fs, t) && machine.fs.inodes[t.file].mode == t.mode
    modifies machine
    ensures r == Value(ORIGINAL_EXACT_RECONCILED) && Original(machine.fs, t)
      && !Durable(Medium(machine.fs, machine.images), [t])
  {
    ghost var fs0 := machine.fs;
    assert Bound(fs0, {fs0}, [t]) && CanMove(fs0, t.Quar(), t.Live());
    BoundAfterRename(fs0, {fs0}, [t], 0, t.Quar(), t.Live());
    PendingRename(fs0, {fs0}, t, t.Quar(), t.Live());
    MoveKeeps(fs0, t, t.Quar(), t.Live());
    var renamed := machine.Rename(t.Quar(), t.Live());
    assert fs0 in machine.images && !OnlyLive(fs0, t) && OnlyLive(machine.fs, t);
    assert [t][0] == t;
    r := ReconcilePending(machine, [t], device, live, quar, 0);
  }

  /** Rollback or reconcile of a quarantined set in which only the read of the first restored file fails: the process ends
      with exit status 20, although that file is back at its live name. */
  method ExitTwentyMoved(machine: Machine, ts: seq<Target>, device: nat,
                         live: map<seq<string>, FileId>, quar: map<seq<string>, nat>, reconcile: bool)
    returns (r: Try<State>)
    requires machine.fs in machine.images && |ts| > 0 && AllQuarantined(machine.fs, ts)
      && Mounted(ts, device, live, quar)
    requires machine.BlindIn((if reconcile then 7 else 6) * |ts| + 11)
    modifies machine
    ensures r.Stop? && r.report.Refused?
    ensures Quarantined(old(machine.fs), ts[|ts| - 1]) && Original(machine.fs, ts[|ts| - 1])
      && machine.fs != old(machine.fs)
  {
    var helper := new Helper(machine, ts, device, live, quar);
    var last := ts[|ts| - 1];
    assert Quarantined(machine.fs, last);
    RestoredIsOriginal(machine.fs, last);
    assert helper.ParentsBound() by { assert forall i | 0 <= i < |ts| :: helper.ParentBound(ts[i]); }
    assert helper.LastTarget() == last && !helper.mutationStarted;
    if reconcile {
      r := helper.ReconcileRollback();
    } else {
      r := helper.RollbackTransaction();
    }
  }

  const LONE: Target := Target([], "a", "digest", 1, 420, 0, 0, FileId(1, 2), FileId(1, 3))

  const LONE_QUARANTINED: FS := FS(map[LONE.Quar() := LONE.file], map[LONE.file := Inode(Regular, "digest", 1, QUARANTINE_MODE, 0, 0, 1)])

  /** The same on one concrete file: it is restored, and its read fails. */
  method ExitTwentyExample(reconcile: bool) returns (r: Try<State>, after: FS)
    ensures r.Stop? && r.report.Refused? && Quarantined(LONE_QUARANTINED, LONE) && Original(after, LONE)
  {
    var calls := if reconcile then 18 else 17;
    var machine := new Machine(Script(n => if n < calls then Done else Fault, calls), LONE_QUARANTINED);
    assert [LONE][0] == LONE;
    assert AllQuarantined(LONE_QUARANTINED, [LONE]);
    r := ExitTwentyMoved(machine, [LONE], 1, map[[] := LONE.parent], map[[] := 1], reconcile);
    after := machine.fs;
  }
}