/** What the steps of tasks leave to the drive: its queue, its transfer and the blocks it has. */
module BlockCacheSteady {
  import opened Common
  import opened BlockCache
  import opened BlockCacheInv
  import opened BlockCacheClient
  import opened BlockCacheIndex
  import opened BlockCacheDrive
  import opened BlockCacheCollect

  /** The invariant, and a drive that neither stalls nor gets stuck. */
  ghost predicate Good(s: State)
  {
    Inv(s) && Serves(s)
  }

  /** A block the drive has is as it was, as far as the drive is concerned. */
  predicate SameJob(s: State, s': State, id: nat)
  {
    OnDrive(s, id) && id in s.blocks ==>
      && id in s'.blocks && s'.blocks[id].dirty == s.blocks[id].dirty && s'.blocks[id].valid == s.blocks[id].valid
      && s'.blocks[id].data == s.blocks[id].data && s'.blocks[id].sector == s.blocks[id].sector
  }

  /** The drive's own state, and the blocks it has, are as they were. */
  ghost predicate Steady(s: State, s': State)
  {
    && s'.queue == s.queue && s'.current == s.current && s'.sectorsLeft == s.sectorsLeft && s'.cfg == s.cfg
    && forall id: nat :: SameJob(s, s', id)
  }

  lemma SteadyServes(s: State, s': State)
    requires Good(s) && Steady(s, s')
    ensures Serves(s')
  {
    if s.current.Some? { assert SameJob(s, s', s.current.value); }
  }

  /** Where tasks are is nothing to the drive. */
  lemma SteadyMoves(s: State, s1: State, s2: State)
    requires Steady(s, s1) && s2 == s1.(pcs := s2.pcs, syncMutex := s2.syncMutex)
    ensures Steady(s, s2)
  {
    forall x: nat ensures SameJob(s, s2, x) { assert SameJob(s, s1, x); }
  }

  lemma ClientSteady(s: State, t: nat, op: ClientOp)
    requires Inv(s) && ClientEnabled(s, t, op)
    ensures Steady(s, ClientNext(s, t, op))
  {
    Facts(s, t, PcOf(s, t).b);
    forall x: nat ensures SameJob(s, ClientNext(s, t, op), x) { Facts(s, t, x); }
  }

  lemma ZeroSteady(s: State, t: nat, op: ZeroOp)
    requires Inv(s) && ZeroEnabled(s, t, op)
    ensures Steady(s, ZeroNext(s, t, op))
  {
    Facts(s, t, PcOf(s, t).b);
    forall x: nat ensures SameJob(s, ZeroNext(s, t, op), x) { Facts(s, t, x); }
  }

  /** An evicted block is not one the drive has. */
  lemma UncacheSteady(s: State, id: nat)
    requires Inv(s) && id in s.lru && id in s.blocks && Evictable(s.blocks[id])
    ensures Steady(s, Uncache(s, id))
  {
    Unreferenced(s, id, 0);
    forall x: nat ensures SameJob(s, Uncache(s, id), x) { Facts(s, 0, x); }
  }

  lemma {:induction false} ShrinkSteady(s: State, todo: seq<nat>, freed: nat)
    requires Inv(s) && (forall id :: id in todo ==> id in s.lru) && Distinct(todo)
    ensures Steady(s, ShrinkPass(s, todo, freed).0)
    decreases |todo|
  {
    var s' := ShrinkPass(s, todo, freed).0;
    if todo == [] || freed >= s.cfg.shrinkSize {
    } else {
      var id := todo[0];
      DistinctTail(todo);
      if id in s.blocks && Evictable(s.blocks[id]) {
        UncacheKeeps(s, id);
        WithoutExact(s.lru, id);
        UncacheSteady(s, id);
        ShrinkSteady(Uncache(s, id), todo[1..], freed + s.cfg.blockSize);
        forall x: nat ensures SameJob(s, s', x) {
          assert SameJob(s, Uncache(s, id), x) && SameJob(Uncache(s, id), s', x);
        }
      } else {
        ShrinkSteady(s, todo[1..], freed);
      }
    }
  }

  lemma ShrinksSteady(s: State, a: Act)
    requires Inv(s) && Shape(s) && Enabled(s, a) && (a.Oom? || a.SecondShrink?)
    ensures Steady(s, Next(s, a))
  {
    var freed := if a.Oom? then 0 else PcOf(s, a.t).freed;
    ShrinkSteady(s, s.lru, freed);
    SteadyMoves(s, ShrinkPass(s, s.lru, freed).0, Next(s, a));
  }

  lemma FindSteady(s: State, t: nat, sector: nat)
    requires Inv(s)
    ensures Steady(s, FindNext(s, t, sector))
  {
    var s' := FindNext(s, t, sector);
    var found := FindBlock(s, sector);
    if !(found.Some? && found.value in s.blocks) && s.cacheSize >= s.cfg.maxSize {
      ShrinkSteady(s, s.lru, 0);
      SteadyMoves(s, ShrinkPass(s, s.lru, 0).0, s');
    } else {
      forall x: nat ensures SameJob(s, s', x) { }
    }
  }

  lemma InsertSteady(s: State, t: nat, sector: nat, id: nat)
    requires Inv(s) && PcOf(s, t) == Insert(sector, id) && id in s.blocks
    ensures Steady(s, InsertNext(s, t, sector, id))
  {
    Facts(s, t, id);
    forall x: nat ensures SameJob(s, InsertNext(s, t, sector, id), x) { assert OnDriveOk(s, x); }
  }

  lemma GetSteady(s: State, t: nat, op: GetOp)
    requires Inv(s) && Shape(s) && GetEnabled(s, t, op) && !op.SubmitStep?
    ensures Steady(s, GetNext(s, t, op))
  {
    if op.FindStep? {
      FindSteady(s, t, PcOf(s, t).sector);
    } else if op.InsertStep? {
      InsertSteady(s, t, PcOf(s, t).sector, PcOf(s, t).new_);
    } else {
      forall x: nat ensures SameJob(s, GetNext(s, t, op), x) { Facts(s, t, x); }
    }
  }

  lemma SyncSteady(s: State, t: nat, op: SyncOp)
    requires Inv(s) && Shape(s) && SyncEnabled(s, t, op) && !op.SyncSubmitStep?
    ensures Steady(s, SyncStepNext(s, t, op))
  {
    forall x: nat ensures SameJob(s, SyncStepNext(s, t, op), x) {
      if op.CollectStep? && x in s.blocks { RefAllExact(s.blocks, CollectAll(s.blocks, s.buckets), t, x); }
    }
  }
}
