/** The steps of `block_get` and of a sync, built from the smaller ones. */
module BlockCacheSync {
  import opened Common
  import opened BlockCache
  import opened BlockCacheInv
  import opened BlockCacheLocal
  import opened BlockCacheClient
  import opened BlockCacheIndex
  import opened BlockCacheDrive

  lemma HandedStarts(s: State, t: nat, id: nat, pc: Pc)
    requires Inv(s) && Serves(s) && Shape(s) && id in s.blocks && !(s.blocks[id].valid && !s.blocks[id].dirty)
    requires Inv(Handed(s, t, id, pc)) && Shows(s, Silent, Handed(s, t, id, pc))
    ensures var s' := SetPc(SyncBlock(s, id), t, pc); Inv(s') && Shows(s, Silent, s') && Serves(s')
  {
    StartKeeps(Handed(s, t, id, pc));
    StartCommutes(SetBlock(s, id, Ref1(s.blocks[id], Drive).(owner := Some(Drive))).(queue := s.queue + [id]), t, pc);
  }

  /** `block_submit`: the block goes to the drive, or is unlocked if there is nothing to transfer. */
  lemma SubmitKeeps(s: State, t: nat, id: nat, pc: Pc)
    requires Inv(s) && Serves(s) && Shape(s) && id in s.blocks && HasLock(PcOf(s, t), id) && !PcOf(s, t).Written?
    requires Owed(PcOf(s, t), id) > 0
    requires forall x: nat ::
             Owed(pc, x) == Owed(PcOf(s, t), x) && !HasLock(pc, x) && (x != id ==> !HasLock(PcOf(s, t), x))
    requires InSync(pc) <==> InSync(PcOf(s, t))
    requires pc == WaitSync(id) || (pc.SyncLock? && TaskOk(SetPc(s, t, pc), t))
    ensures Inv(SetPc(SyncBlock(s, id), t, pc)) && Shows(s, Silent, SetPc(SyncBlock(s, id), t, pc))
    ensures Serves(SetPc(SyncBlock(s, id), t, pc))
  {
    Facts(s, t, id);
    var b := s.blocks[id];
    if b.valid && !b.dirty {
      LocalKeeps(s, t, id, Unlock(b), pc);
    } else {
      HandedKeeps(s, t, id, pc);
      HandedStarts(s, t, id, pc);
    }
  }

  /** Starting a request does not depend on where tasks are. */
  lemma StartCommutes(s: State, t: nat, pc: Pc)
    requires Sized(s) && forall q :: q in s.queue ==> q in s.blocks
    ensures Sized(SetPc(s, t, pc)) && StartRequest(SetPc(s, t, pc)) == SetPc(StartRequest(s), t, pc)
  {
  }

  // ---------------------------------------------------------------- block_get

  /** The steps of `block_get` that only move the task. */
  lemma GetMoves(s: State, t: nat, op: GetOp)
    requires Inv(s) && Shape(s) && GetEnabled(s, t, op) && (op.GotStep? || op.CheckStep? || op.WaitStep?)
    ensures Inv(GetNext(s, t, op)) && Shows(s, Silent, GetNext(s, t, op))
  {
    var s' := GetNext(s, t, op);
    var id := PcOf(s, t).b;
    Facts(s, t, id);
    assert s' == SetPc(s, t, PcOf(s', t)).(syncMutex := s.syncMutex);
    MoveKeeps(s, t, PcOf(s', t), s.syncMutex);
  }

  lemma GetLocks(s: State, t: nat)
    requires Inv(s) && Shape(s) && GetEnabled(s, t, LockStep)
    ensures Inv(GetNext(s, t, LockStep)) && Shows(s, Silent, GetNext(s, t, LockStep))
  {
    var id := PcOf(s, t).b;
    Facts(s, t, id);
    LocalKeeps(s, t, id, Lock(s.blocks[id], Task(t)), Submit(id));
  }

  lemma GetSubmits(s: State, t: nat)
    requires Inv(s) && Shape(s) && Serves(s) && GetEnabled(s, t, SubmitStep)
    ensures var s' := GetNext(s, t, SubmitStep); Inv(s') && Shows(s, Silent, s') && Serves(s')
  {
    var id := PcOf(s, t).b;
    SubmitKeeps(s, t, id, WaitSync(id));
  }

  /** The shrink before an allocation, or on out-of-memory. */
  lemma ShrinkStepKeeps(s: State, t: nat, then_: Option<nat>)
    requires Inv(s) && (PcOf(s, t).Find? || PcOf(s, t).Idle?)
    ensures Inv(ShrinkStep(s, t, then_)) && Shows(s, Silent, ShrinkStep(s, t, then_))
  {
    ShrinkKeeps(s, s.lru, 0);
    var (s1, freed) := ShrinkPass(s, s.lru, 0);
    var pc := PcOf(ShrinkStep(s, t, then_), t);
    Facts(s1, t, 0);
    assert ShrinkStep(s, t, then_) == SetPc(s1, t, pc).(syncMutex := s1.syncMutex);
    MoveKeeps(s1, t, pc, s1.syncMutex);
  }

  lemma FindKeeps(s: State, t: nat, sector: nat)
    requires Inv(s) && PcOf(s, t) == Find(sector)
    ensures Inv(FindNext(s, t, sector)) && Shows(s, Silent, FindNext(s, t, sector))
  {
    var found := FindBlock(s, sector);
    FindExact(s, sector);
    if found.Some? {
      FoundKeeps(s, t, found.value);
    } else if s.cacheSize >= s.cfg.maxSize {
      ShrinkStepKeeps(s, t, Some(sector));
    } else {
      Facts(s, t, 0);
      assert SetPc(s, t, Alloc(sector)) == SetPc(s, t, Alloc(sector)).(syncMutex := s.syncMutex);
      MoveKeeps(s, t, Alloc(sector), s.syncMutex);
    }
  }

  /** The second lookup of `block_get_nosync`: whoever inserted first wins, so a sector is never cached twice. */
  lemma InsertKeeps(s: State, t: nat, sector: nat, id: nat)
    requires Inv(s) && PcOf(s, t) == Insert(sector, id)
    ensures id in s.blocks && Inv(InsertNext(s, t, sector, id)) && Shows(s, Silent, InsertNext(s, t, sector, id))
  {
    Facts(s, t, id);
    var found := FindBlock(s, sector);
    FindExact(s, sector);
    if found.Some? {
      DropKeeps(s, t);
      var s1 := SetPc(s.(blocks := s.blocks - {id}), t, Find(sector));
      FoundKeeps(s1, t, found.value);
      assert SetPc(TakeRef(s1, t, found.value), t, Got(found.value)) == InsertNext(s, t, sector, id);
    } else {
      CacheKeeps(s, t);
      var s1 := SetPc(Cache(s, id), t, Find(sector));
      FoundKeeps(s1, t, id);
      assert SetPc(TakeRef(s1, t, id), t, Got(id)) == InsertNext(s, t, sector, id);
    }
  }

  lemma GetStep(s: State, t: nat, op: GetOp)
    requires Inv(s) && Shape(s) && Serves(s) && GetEnabled(s, t, op)
    ensures Inv(GetNext(s, t, op)) && Shows(s, Silent, GetNext(s, t, op))
  {
    match op
    case FindStep => FindKeeps(s, t, PcOf(s, t).sector);
    case AllocStep(id) => AllocKeeps(s, t, id);
    case InsertStep => InsertKeeps(s, t, PcOf(s, t).sector, PcOf(s, t).new_);
    case GotStep => GetMoves(s, t, op);
    case CheckStep => GetMoves(s, t, op);
    case LockStep => GetLocks(s, t);
    case SubmitStep => GetSubmits(s, t);
    case WaitStep => GetMoves(s, t, op);
  }
}
