/** What a waiting sync is for: every block it lists has been on the disk by the time it returns. */
module BlockCacheFlush {
  import opened BlockCache
  import opened BlockCacheInv
  import opened BlockCacheClient
  import opened BlockCacheCollect
  import opened BlockCacheSteady
  import opened BlockCacheRuns
  import opened BlockCacheDurable

  /** The disk holds what the sector stands for. */
  ghost predicate UpToDate(s: State, sector: nat)
    requires Inv(s)
  {
    s.disk[sector] == Logical(s, sector)
  }

  /** At some point of the run the disk holds what the sector stands for at that point. */
  ghost predicate Refreshed(s: State, acts: seq<Act>, sector: nat)
    requires Good(s) && Runs(s, acts)
    decreases |acts|
  {
    UpToDate(s, sector) || (acts != [] && (StepKeeps(s, acts[0]); Refreshed(Next(s, acts[0]), acts[1..], sector)))
  }

  // ---------------------------------------------------------------- what a step leaves alone

  /** The block is gone or is still the same sector's. */
  predicate SectorKept(s: State, s': State, id: nat)
  {
    id in s.blocks && id in s'.blocks ==> s'.blocks[id].sector == s.blocks[id].sector
  }

  lemma {:induction false} ShrinkLeaves(s: State, todo: seq<nat>, freed: nat, id: nat)
    requires |s.buckets| == HASH_SIZE
    ensures var s' := ShrinkPass(s, todo, freed).0;
            s'.pcs == s.pcs && (id in s'.blocks ==> id in s.blocks && s'.blocks[id] == s.blocks[id])
    decreases |todo|
  {
    if todo == [] || freed >= s.cfg.shrinkSize {
    } else if todo[0] in s.blocks && Evictable(s.blocks[todo[0]]) {
      ShrinkLeaves(Uncache(s, todo[0]), todo[1..], freed + s.cfg.blockSize, id);
    } else {
      ShrinkLeaves(s, todo[1..], freed, id);
    }
  }

  /** Task `t` is past the collecting step of a sync. */
  predicate Listed(pc: Pc)
  {
    pc.SyncLock? || pc.SyncSubmit? || pc.SyncWait?
  }

  lemma GetLeaves(s: State, u: nat, op: GetOp, t: nat, id: nat)
    requires Shape(s) && GetEnabled(s, u, op) && Listed(PcOf(s, t))
    ensures var s' := GetNext(s, u, op); PcOf(s', t) == PcOf(s, t) && SectorKept(s, s', id)
  {
    if op.FindStep? {
      ShrinkLeaves(s, s.lru, 0, id);
    } else if op.InsertStep? {
      InsertLeaves(s, u, id);
    }
  }

  lemma InsertLeaves(s: State, u: nat, id: nat)
    requires Shape(s) && GetEnabled(s, u, InsertStep)
    ensures SectorKept(s, GetNext(s, u, InsertStep), id)
  {
  }

  lemma IntrLeaves(s: State, id: nat)
    requires Shape(s) && IntrEnabled(s)
    ensures Interrupt(s).pcs == s.pcs && SectorKept(s, Interrupt(s), id)
  {
  }

  lemma SyncLeaves(s: State, u: nat, op: SyncOp, id: nat)
    requires Shape(s) && SyncEnabled(s, u, op)
    ensures SectorKept(s, SyncStepNext(s, u, op), id)
  {
    if op.SyncSubmitStep? { SubmitLeaves(s, u, id); }
  }

  lemma SubmitLeaves(s: State, u: nat, id: nat)
    requires Shape(s) && SyncEnabled(s, u, SyncSubmitStep)
    ensures SectorKept(s, SyncStepNext(s, u, SyncSubmitStep), id)
  {
    var b := PcOf(s, u).todo[0];
    assert SectorKept(s, SyncBlock(s, b), id);
  }

  lemma SyncMovesOne(s: State, u: nat, op: SyncOp, t: nat)
    requires Shape(s) && SyncEnabled(s, u, op) && u != t
    ensures PcOf(SyncStepNext(s, u, op), t) == PcOf(s, t)
  {
  }

  lemma ClientLeaves(s: State, u: nat, op: ClientOp, t: nat, id: nat)
    requires ClientEnabled(s, u, op) && Listed(PcOf(s, t))
    ensures var s' := ClientNext(s, u, op); PcOf(s', t) == PcOf(s, t) && SectorKept(s, s', id)
  {
  }

  lemma ShrinksLeave(s: State, a: Act, t: nat, id: nat)
    requires Shape(s) && Enabled(s, a) && Listed(PcOf(s, t)) && (a.Oom? || a.SecondShrink?)
    ensures PcOf(Next(s, a), t) == PcOf(s, t) && SectorKept(s, Next(s, a), id)
  {
    ShrinkLeaves(s, s.lru, if a.Oom? then 0 else PcOf(s, a.t).freed, id);
  }

  /** No step but its own moves a task in a sync, and none gives a block another sector. */
  lemma StepLeaves(s: State, a: Act, t: nat, id: nat)
    requires Shape(s) && Enabled(s, a) && Listed(PcOf(s, t)) && !(a.Sync? && a.t == t)
    ensures PcOf(Next(s, a), t) == PcOf(s, t) && SectorKept(s, Next(s, a), id)
  {
    match a
    case StartGet(_, _) =>
    case Get(u, op) => GetLeaves(s, u, op, t, id);
    case Client(u, op) => ClientLeaves(s, u, op, t, id);
    case Zero(u, op) =>
    case StartSync(_, _, _) =>
    case Sync(u, op) =>
      SyncLeaves(s, u, op, id);
      SyncMovesOne(s, u, op, t);
    case Oom(_) => ShrinksLeave(s, a, t, id);
    case SecondShrink(u) => ShrinksLeave(s, a, t, id);
    case Intr => IntrLeaves(s, id);
  }

  // ---------------------------------------------------------------- a block a sync has listed

  /** Task `t`, in a waiting sync, has the block still to submit, or to wait for while the drive writes it. */
  predicate Pending(s: State, t: nat, id: nat)
  {
    var pc := PcOf(s, t);
    && Listed(pc) && pc.a.wait
    && (|| (!pc.SyncWait? && id in pc.todo)
        || (id in pc.waits && OnDrive(s, id) && id in s.blocks && s.blocks[id].dirty))
  }

  lemma PendingThere(s: State, t: nat, id: nat)
    requires Inv(s) && Pending(s, t, id)
    ensures id in s.lru && id in s.blocks && Owed(PcOf(s, t), id) > 0
  {
    Facts(s, t, id);
  }

  /** A clean block nobody is writing is on the disk. */
  lemma CleanIsUpToDate(s: State, id: nat)
    requires Inv(s) && id in s.lru && id in s.blocks && s.blocks[id].valid && !s.blocks[id].dirty &&
             !BeingWritten(s, id)
    ensures UpToDate(s, s.blocks[id].sector)
  {
    Facts(s, 0, id);
    FindExact(s, s.blocks[id].sector);
  }

  /** The submitting step of the task itself: the block is found clean, is handed to the drive, or waits its turn. */
  lemma OwnSubmit(s: State, t: nat, id: nat)
    requires Good(s) && Shape(s) && SyncEnabled(s, t, SyncSubmitStep) && Pending(s, t, id) && !EarlyContinue(s, t)
    ensures id in s.blocks
    ensures UpToDate(s, s.blocks[id].sector) || Pending(SyncStepNext(s, t, SyncSubmitStep), t, id)
  {
    var SyncSubmit(todo, waits, a) := PcOf(s, t);
    var s' := SyncStepNext(s, t, SyncSubmitStep);
    PendingThere(s, t, id);
    assert todo == [todo[0]] + todo[1..];
    if id == todo[0] && id in todo {
      Facts(s, t, id);
      if s.blocks[id].dirty {
        SyncHandsOver(s, t);
        assert id in waits + [id];
      } else {
        CleanIsUpToDate(s, id);
      }
    } else if id !in todo {
      NotOnDrive(s, t, todo[0]);
      SyncSubmitJobs(s, t, id);
      assert id in waits + [todo[0]];
    }
  }

  /** Any other step of the sync: a block still on the drive is not passed. */
  lemma OwnStep(s: State, t: nat, op: SyncOp, id: nat)
    requires Good(s) && Shape(s) && SyncEnabled(s, t, op) && Pending(s, t, id) && !op.SyncSubmitStep?
    ensures Pending(SyncStepNext(s, t, op), t, id)
  {
    PendingThere(s, t, id);
    if op.SyncWaitStep? {
      SyncWaitsForDrive(s, t);
      assert PcOf(s, t).waits == [PcOf(s, t).waits[0]] + PcOf(s, t).waits[1..];
    }
  }

  /** A step of the drive: the block stays with it, or is written. */
  lemma DriveStep(s: State, t: nat, id: nat)
    requires Good(s) && Shape(s) && IntrEnabled(s) && Pending(s, t, id) && Good(Interrupt(s))
    ensures id in s.blocks
    ensures Pending(Interrupt(s), t, id) || UpToDate(Interrupt(s), s.blocks[id].sector)
  {
    PendingThere(s, t, id);
    IntrLeaves(s, id);
    if PcOf(s, t).SyncWait? || id !in PcOf(s, t).todo {
      var s' := Interrupt(s);
      InterruptJobs(s, id);
      if !OnDrive(s', id) {
        Facts(s', t, id);
        CleanIsUpToDate(s', id);
      }
    }
  }

  /** A step of another task. */
  lemma OtherStep(s: State, a: Act, t: nat, id: nat)
    requires Good(s) && Shape(s) && Enabled(s, a) && !a.Intr? && !(a.Sync? && a.t == t) && Pending(s, t, id)
    ensures Pending(Next(s, a), t, id)
  {
    PendingThere(s, t, id);
    StepLeaves(s, a, t, id);
    if PcOf(s, t).SyncWait? || id !in PcOf(s, t).todo { TaskJobs(s, a, id); }
  }

  /** While a block is pending it stays so, until the disk holds what it stands for. */
  lemma PendingStep(s: State, a: Act, t: nat, id: nat)
    requires Good(s) && Shape(s) && Enabled(s, a) && Allowed(s, a) && Pending(s, t, id) && Good(Next(s, a))
    ensures id in s.blocks
    ensures var k, s' := s.blocks[id].sector, Next(s, a);
            UpToDate(s, k) || UpToDate(s', k) || (Pending(s', t, id) && id in s'.blocks && s'.blocks[id].sector == k)
  {
    PendingThere(s, t, id);
    if a.Sync? && a.t == t {
      SyncLeaves(s, t, a.sync, id);
      if a.sync.SyncSubmitStep? { OwnSubmit(s, t, id); } else { OwnStep(s, t, a.sync, id); }
    } else {
      StepLeaves(s, a, t, id);
      if a.Intr? { DriveStep(s, t, id); } else { OtherStep(s, a, t, id); }
    }
    if Pending(Next(s, a), t, id) { PendingThere(Next(s, a), t, id); }
  }

  lemma {:induction false} PendingRun(s: State, acts: seq<Act>, t: nat, id: nat)
    requires Good(s) && Runs(s, acts) && Pending(s, t, id) && !Listed(PcOf(After(s, acts), t))
    ensures id in s.blocks && Refreshed(s, acts, s.blocks[id].sector)
    decreases |acts|
  {
    PendingThere(s, t, id);
    var k := s.blocks[id].sector;
    StepKeeps(s, acts[0]);
    var s1 := Next(s, acts[0]);
    PendingStep(s, acts[0], t, id);
    if !UpToDate(s, k) && !UpToDate(s1, k) { PendingRun(s1, acts[1..], t, id); }
  }

  /** When a waiting sync is over, every block that was dirty when it began has been on the disk since, with the
      contents its sector had at that moment: the data of the beginning, or later data. */
  lemma SyncIsDurable(s: State, t: nat, acts: seq<Act>, id: nat)
    requires Good(s) && Shape(s) && SyncEnabled(s, t, CollectStep) && PcOf(s, t).a.wait
    requires id in s.lru && id in s.blocks && s.blocks[id].valid && s.blocks[id].dirty
    requires Runs(SyncStepNext(s, t, CollectStep), acts)
    requires !Listed(PcOf(After(SyncStepNext(s, t, CollectStep), acts), t))
    ensures var s1 := SyncStepNext(s, t, CollectStep); Good(s1) && Refreshed(s1, acts, s.blocks[id].sector)
  {
    var s1 := SyncStepNext(s, t, CollectStep);
    StepKeeps(s, Sync(t, CollectStep));
    Collected(s);
    SyncLeaves(s, t, CollectStep, id);
    PendingRun(s1, acts, t, id);
  }
}
