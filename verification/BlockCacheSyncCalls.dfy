/** What calls of a waiting sync and of a shrink are for, from the call to the return. */
module BlockCacheSyncCalls {
  import opened Common
  import opened BlockCache
  import opened BlockCacheInv
  import opened BlockCacheClient
  import opened BlockCacheIndex
  import opened BlockCacheCollect
  import opened BlockCacheDrive
  import opened BlockCacheSteady
  import opened BlockCacheRuns
  import opened BlockCacheDurable
  import opened BlockCacheFlush
  import opened BlockCacheCalls

  // ---------------------------------------------------------------- a dirty block stays until it is written

  /** The block is cached, valid and dirty. */
  predicate DirtyAt(s: State, id: nat, sector: nat)
  {
    && id in s.blocks && s.blocks[id].home.None? && s.blocks[id].valid && s.blocks[id].dirty
    && s.blocks[id].sector == sector
  }

  lemma ClientDirty(s: State, t: nat, op: ClientOp, id: nat, k: nat)
    requires ClientEnabled(s, t, op) && DirtyAt(s, id, k)
    ensures DirtyAt(ClientNext(s, t, op), id, k)
  {
  }

  lemma InsertDirty(s: State, t: nat, id: nat, k: nat)
    requires Inv(s) && Shape(s) && GetEnabled(s, t, InsertStep) && DirtyAt(s, id, k)
    ensures DirtyAt(GetNext(s, t, InsertStep), id, k)
  {
    Facts(s, t, PcOf(s, t).new_);
    Facts(s, t, id);
  }

  lemma GetDirty(s: State, t: nat, op: GetOp, id: nat, k: nat)
    requires Inv(s) && Shape(s) && GetEnabled(s, t, op) && DirtyAt(s, id, k)
    ensures DirtyAt(GetNext(s, t, op), id, k)
  {
    match op
    case FindStep => ShrinkKeeps(s, s.lru, 0);
    case InsertStep => InsertDirty(s, t, id, k);
    case SubmitStep => SubmitDirty(s, PcOf(s, t).b, id, k);
    case _ =>
  }

  /** Handing a block to the drive changes no data. */
  lemma SubmitDirty(s: State, b: nat, id: nat, k: nat)
    requires Shape(s) && b in s.blocks && DirtyAt(s, id, k)
    ensures DirtyAt(SyncBlock(s, b), id, k)
  {
  }

  lemma SyncDirty(s: State, t: nat, op: SyncOp, id: nat, k: nat)
    requires Shape(s) && SyncEnabled(s, t, op) && DirtyAt(s, id, k)
    ensures DirtyAt(SyncStepNext(s, t, op), id, k)
  {
    match op
    case CollectStep => RefAllExact(s.blocks, CollectAll(s.blocks, s.buckets), t, id);
    case SyncSubmitStep => SyncSubmitDirty(s, t, id, k);
    case _ =>
  }

  lemma SyncSubmitDirty(s: State, t: nat, id: nat, k: nat)
    requires Shape(s) && SyncEnabled(s, t, SyncSubmitStep) && DirtyAt(s, id, k)
    ensures DirtyAt(SyncStepNext(s, t, SyncSubmitStep), id, k)
  {
    SubmitDirty(s, PcOf(s, t).todo[0], id, k);
  }

  lemma DriveDirty(s: State, id: nat, k: nat)
    requires Good(s) && Shape(s) && IntrEnabled(s) && Good(Interrupt(s)) && DirtyAt(s, id, k)
    ensures DirtyAt(Interrupt(s), id, k) || UpToDate(Interrupt(s), k)
  {
    var s' := Interrupt(s);
    Facts(s, 0, id);
    if OnDrive(s, id) {
      IntrLeaves(s, id);
      InterruptJobs(s, id);
      InterruptBlock(s, id);
      Facts(s', 0, id);
      if !OnDrive(s', id) { CleanIsUpToDate(s', id); }
    } else {
      DriveElsewhere(s, id);
    }
  }

  /** The drive does not touch a block it does not have. */
  lemma DriveElsewhere(s: State, id: nat)
    requires Shape(s) && IntrEnabled(s) && id in s.blocks && s.current != Some(id)
    ensures id in Interrupt(s).blocks && Interrupt(s).blocks[id] == s.blocks[id]
  {
  }

  lemma ZeroDirty(s: State, t: nat, op: ZeroOp, id: nat, k: nat)
    requires Good(s) && Shape(s) && ZeroEnabled(s, t, op) && Allowed(s, Zero(t, op)) && DirtyAt(s, id, k)
    requires Good(ZeroNext(s, t, op))
    ensures DirtyAt(ZeroNext(s, t, op), id, k) || UpToDate(ZeroNext(s, t, op), k)
  {
    var s' := ZeroNext(s, t, op);
    if op == ZeroClear(false) && PcOf(s, t).b == id {
      Facts(s', t, id);
      CleanIsUpToDate(s', id);
    }
  }

  /** A dirty block stays cached and dirty until the disk holds what its sector stands for. */
  lemma DirtyStep(s: State, a: Act, id: nat, k: nat)
    requires Good(s) && Shape(s) && Enabled(s, a) && Allowed(s, a) && Good(Next(s, a)) && DirtyAt(s, id, k)
    ensures DirtyAt(Next(s, a), id, k) || UpToDate(Next(s, a), k)
  {
    match a
    case StartGet(_, _) =>
    case Get(t, op) => GetDirty(s, t, op, id, k);
    case Client(t, op) => ClientDirty(s, t, op, id, k);
    case Zero(t, op) => ZeroDirty(s, t, op, id, k);
    case StartSync(_, _, _) =>
    case Sync(t, op) => SyncDirty(s, t, op, id, k);
    case Oom(_) => ShrinkKeeps(s, s.lru, 0);
    case SecondShrink(t) => ShrinkKeeps(s, s.lru, PcOf(s, t).freed);
    case Intr => DriveDirty(s, id, k);
  }

  // ---------------------------------------------------------------- from the call of a sync to its return

  /** Task `t` has called for a sync that waits and has yet to list the blocks. */
  predicate Calling(pc: Pc)
  {
    (pc.SyncWant? || pc.SyncCollect?) && pc.a.wait
  }

  lemma CollectPends(s: State, t: nat, id: nat, k: nat)
    requires Good(s) && Shape(s) && SyncEnabled(s, t, CollectStep) && PcOf(s, t).a.wait && DirtyAt(s, id, k)
    ensures Pending(SyncStepNext(s, t, CollectStep), t, id)
    ensures var s' := SyncStepNext(s, t, CollectStep); id in s'.blocks && s'.blocks[id].sector == k
  {
    Facts(s, t, id);
    Collected(s);
  }

  lemma CallingStep(s: State, a: Act, t: nat)
    requires Shape(s) && Enabled(s, a) && Calling(PcOf(s, t)) && a != Sync(t, CollectStep)
    ensures Calling(PcOf(Next(s, a), t))
  {
    if a != Sync(t, SyncEnter) { StaysPut(s, a, t); }
  }

  lemma {:induction false} CallingRun(s: State, acts: seq<Act>, t: nat, id: nat, k: nat)
    requires Good(s) && Runs(s, acts) && Calling(PcOf(s, t)) && DirtyAt(s, id, k) && PcOf(After(s, acts), t).Idle?
    ensures Refreshed(s, acts, k)
    decreases |acts|
  {
    var a := acts[0];
    StepKeeps(s, a);
    var s1 := Next(s, a);
    DirtyStep(s, a, id, k);
    if a == Sync(t, CollectStep) {
      CollectPends(s, t, id, k);
      PendingRun(s1, acts[1..], t, id);
    } else {
      CallingStep(s, a, t);
      if DirtyAt(s1, id, k) {
        CallingRun(s1, acts[1..], t, id, k);
      } else {
        assert Refreshed(s1, acts[1..], k);
      }
    }
  }

  /** A call of `block_sync_all` or `block_dev_sync` with `wait`: when the task is idle again, every block that was
      valid and dirty when it called has been on the disk since, with the contents its sector had at that moment. */
  lemma SyncCallIsDurable(s: State, t: nat, recheck: bool, acts: seq<Act>, id: nat)
    requires Good(s) && Shape(s) && Enabled(s, StartSync(t, true, recheck))
    requires Runs(Next(s, StartSync(t, true, recheck)), acts)
    requires PcOf(After(Next(s, StartSync(t, true, recheck)), acts), t).Idle?
    requires id in s.lru && id in s.blocks && s.blocks[id].valid && s.blocks[id].dirty
    ensures var s1 := Next(s, StartSync(t, true, recheck)); Good(s1) && Refreshed(s1, acts, s.blocks[id].sector)
  {
    StepKeeps(s, StartSync(t, true, recheck));
    Facts(s, t, id);
    CallingRun(Next(s, StartSync(t, true, recheck)), acts, t, id, s.blocks[id].sector);
  }

  // ---------------------------------------------------------------- without waiting

  /** Task `t` is in a sync and has the block still to submit. */
  predicate Awaited(pc: Pc, id: nat)
  {
    pc.SyncWant? || pc.SyncCollect? || ((pc.SyncLock? || pc.SyncSubmit?) && id in pc.todo)
  }

  predicate Started(s: State, t: nat, id: nat, k: nat)
  {
    DirtyAt(s, id, k) && (OnDrive(s, id) || Awaited(PcOf(s, t), id))
  }

  lemma OwnAwaited(s: State, t: nat, op: SyncOp, id: nat, k: nat)
    requires Good(s) && Shape(s) && SyncEnabled(s, t, op) && DirtyAt(s, id, k) && Awaited(PcOf(s, t), id)
    ensures var s' := SyncStepNext(s, t, op); OnDrive(s', id) || Awaited(PcOf(s', t), id)
  {
    Facts(s, t, id);
    if op.CollectStep? {
      Collected(s);
    } else if op.SyncSubmitStep? {
      var todo := PcOf(s, t).todo;
      assert todo == [todo[0]] + todo[1..];
      if id == todo[0] { SyncHandsOver(s, t); }
    }
  }

  /** A block on the drive is there after the step, or is clean. */
  lemma StaysOnDrive(s: State, a: Act, id: nat, k: nat)
    requires Good(s) && Shape(s) && Enabled(s, a) && OnDrive(s, id) && DirtyAt(s, id, k)
    ensures OnDrive(Next(s, a), id) || !DirtyAt(Next(s, a), id, k)
  {
    if a.Intr? { InterruptJobs(s, id); } else { TaskJobs(s, a, id); }
  }

  lemma StartedStep(s: State, a: Act, t: nat, id: nat, k: nat)
    requires Good(s) && Shape(s) && Enabled(s, a) && Allowed(s, a) && Good(Next(s, a)) && Started(s, t, id, k)
    ensures Started(Next(s, a), t, id, k) || UpToDate(Next(s, a), k)
  {
    DirtyStep(s, a, id, k);
    if OnDrive(s, id) { StaysOnDrive(s, a, id, k); } else { AwaitedStep(s, a, t, id, k); }
  }

  lemma AwaitedStep(s: State, a: Act, t: nat, id: nat, k: nat)
    requires Good(s) && Shape(s) && Enabled(s, a) && DirtyAt(s, id, k) && Awaited(PcOf(s, t), id)
    ensures OnDrive(Next(s, a), id) || Awaited(PcOf(Next(s, a), t), id)
  {
    if a.Sync? && a.t == t { OwnAwaited(s, t, a.sync, id, k); } else { StaysPut(s, a, t); }
  }

  lemma {:induction false} StartedRun(s: State, acts: seq<Act>, t: nat, id: nat, k: nat)
    requires Good(s) && Runs(s, acts) && Started(s, t, id, k)
    ensures Good(After(s, acts)) && (Refreshed(s, acts, k) || Started(After(s, acts), t, id, k))
    decreases |acts|
  {
    if acts != [] {
      StepKeeps(s, acts[0]);
      StartedStep(s, acts[0], t, id, k);
      var s1 := Next(s, acts[0]);
      if Started(s1, t, id, k) {
        StartedRun(s1, acts[1..], t, id, k);
      } else {
        assert Refreshed(s1, acts[1..], k);
        RunIsFlat(s1, acts[1..]);
      }
    }
  }

  /** A call of a sync, waiting or not: when the task is idle again, every block that was valid and dirty when it
      called has been on the disk since, or the drive has it. */
  lemma SyncCallHandsOver(s: State, t: nat, wait: bool, recheck: bool, acts: seq<Act>, id: nat)
    requires Good(s) && Shape(s) && Enabled(s, StartSync(t, wait, recheck))
    requires Runs(Next(s, StartSync(t, wait, recheck)), acts)
    requires PcOf(After(Next(s, StartSync(t, wait, recheck)), acts), t).Idle?
    requires id in s.lru && id in s.blocks && s.blocks[id].valid && s.blocks[id].dirty
    ensures var s1 := Next(s, StartSync(t, wait, recheck));
            Good(s1) && (Refreshed(s1, acts, s.blocks[id].sector) || OnDrive(After(s1, acts), id))
  {
    StepKeeps(s, StartSync(t, wait, recheck));
    Facts(s, t, id);
    StartedRun(Next(s, StartSync(t, wait, recheck)), acts, t, id, s.blocks[id].sector);
  }
}
