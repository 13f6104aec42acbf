/** The invariant of the block cache and what it says: who holds which reference, who holds which
    lock, where cached data agrees with the disk, and which sector contents the system stands for. */
module BlockCacheInv {
  import opened Common
  import opened BlockCache

  /** How many references to `id` a task at `pc` has to give back. */
  function Owed(pc: Pc, id: nat): nat
  {
    match pc
    case Got(b) => if b == id then 1 else 0
    case Check(b) => if b == id then 1 else 0
    case WantLock(b) => if b == id then 1 else 0
    case Submit(b) => if b == id then 1 else 0
    case WaitSync(b) => if b == id then 1 else 0
    case Ref(b) => if b == id then 1 else 0
    case Locked(b) => if b == id then 1 else 0
    case Written(b) => if b == id then 1 else 0
    case Clearing(b) => if b == id then 1 else 0
    case SyncLock(todo, waits, _) => multiset(todo)[id] + multiset(waits)[id]
    case SyncSubmit(todo, waits, _) => multiset(todo)[id] + multiset(waits)[id]
    case SyncWait(waits, _) => multiset(waits)[id]
    case _ => 0
  }

  /** A task at `pc` has set LOCKED on `id` and not yet passed it on. */
  predicate HasLock(pc: Pc, id: nat)
  {
    match pc
    case Submit(b) => b == id
    case Locked(b) => b == id
    case Written(b) => b == id
    case Clearing(b) => b == id
    case SyncSubmit(todo, _, _) => todo != [] && todo[0] == id
    case _ => false
  }

  predicate InSync(pc: Pc)
  {
    pc.SyncCollect? || pc.SyncLock? || pc.SyncSubmit? || pc.SyncWait?
  }

  /** The drive works on `id` or has it queued. */
  predicate OnDrive(s: State, id: nat)
  {
    id in s.queue || s.current == Some(id)
  }

  /** A chain holds cached blocks of its own hash, each once. */
  ghost predicate ChainOk(s: State, k: nat)
    requires k < |s.buckets|
  {
    && Distinct(s.buckets[k])
    && forall id :: id in s.buckets[k] ==> id in s.lru && id in s.blocks && BlockHash(s.cfg, s.blocks[id].sector) == k
  }

  /** A cached block is in the chain of its sector; a block is cached unless a task is still making it. */
  predicate CachedOk(s: State, id: nat)
    requires |s.buckets| == HASH_SIZE
  {
    && (id in s.lru ==> id in s.blocks && id in s.buckets[BlockHash(s.cfg, s.blocks[id].sector)])
    && (id in s.blocks ==> (s.blocks[id].home.None? <==> id in s.lru))
  }

  predicate SameSector(s: State, i: nat, j: nat)
  {
    i in s.blocks && j in s.blocks && s.blocks[i].sector == s.blocks[j].sector
  }

  /** Hash chains, LRU list, size and identity: at most one cached block per sector. */
  ghost predicate Index(s: State)
  {
    && |s.buckets| == HASH_SIZE
    && (forall k: nat :: k < HASH_SIZE ==> ChainOk(s, k))
    && (forall id: nat :: CachedOk(s, id))
    && Distinct(s.lru)
    && s.cacheSize == |s.lru| * s.cfg.blockSize
    && (forall i: nat, j: nat :: i in s.lru && j in s.lru && SameSector(s, i, j) ==> i == j)
  }

  predicate RefOk(s: State, id: nat, t: nat)
  {
    && (id in s.blocks ==> s.blocks[id].holders[Task(t)] == Owed(PcOf(s, t), id))
    && (Owed(PcOf(s, t), id) > 0 ==> id in s.lru)
  }

  predicate CountOk(s: State, id: nat)
  {
    id in s.blocks ==>
      && s.blocks[id].refs == |s.blocks[id].holders|
      && s.blocks[id].holders[Drive] == if OnDrive(s, id) then 1 else 0
  }

  /** Every reference is accounted for: `refs` is exactly what the tasks and the drive hold. */
  ghost predicate Refs(s: State)
  {
    (forall id: nat, t: nat :: RefOk(s, id, t)) && (forall id: nat :: CountOk(s, id))
  }

  predicate LockOk(s: State, id: nat, t: nat)
  {
    id in s.blocks ==> (s.blocks[id].owner == Some(Task(t)) <==> HasLock(PcOf(s, t), id))
  }

  predicate OwnerOk(s: State, id: nat)
  {
    id in s.blocks ==>
      && (s.blocks[id].locked <==> s.blocks[id].owner.Some?)
      && (s.blocks[id].owner == Some(Drive) <==> OnDrive(s, id))
  }

  /** LOCKED is a lock: exactly one task or the drive holds it, and it is the one whose turn it is. */
  ghost predicate Locks(s: State)
  {
    (forall id: nat, t: nat :: LockOk(s, id, t)) && (forall id: nat :: OwnerOk(s, id))
  }

  /** How far a PIO transfer has come: the sectors done agree. */
  ghost predicate Progress(s: State, id: nat)
    requires id in s.blocks && Sized(s)
  {
    && s.sectorsLeft <= s.cfg.n
    && (!s.cfg.dma ==>
          forall k :: 0 <= k < s.cfg.n - s.sectorsLeft ==> s.disk[s.blocks[id].sector][k] == s.blocks[id].data[k])
  }

  /** A block on the drive is cached, and has something to transfer. */
  predicate OnDriveOk(s: State, id: nat)
  {
    OnDrive(s, id) ==> id in s.lru && id in s.blocks && (s.blocks[id].valid ==> s.blocks[id].dirty)
  }

  ghost predicate DriveOk(s: State)
    requires Sized(s)
  {
    && Distinct(s.queue)
    && (forall id: nat :: OnDriveOk(s, id))
    && (s.current.Some? ==> s.current.value !in s.queue && s.current.value in s.blocks && Progress(s, s.current.value))
  }

  ghost predicate AllValid(s: State, ids: seq<nat>)
  {
    forall id :: id in ids ==> id in s.blocks && s.blocks[id].valid
  }

  ghost predicate ListsOk(s: State, todo: seq<nat>, waits: seq<nat>, a: SyncArgs)
  {
    AllValid(s, todo) && AllValid(s, waits) && Distinct(todo + waits) && (!a.wait ==> waits == [])
  }

  /** What a task may rely on about its blocks. */
  ghost predicate TaskOk(s: State, t: nat)
  {
    && (InSync(PcOf(s, t)) <==> s.syncMutex == Some(t))
    && match PcOf(s, t)
       case Insert(sector, id) => id in s.blocks && s.blocks[id].home == Some(t) && s.blocks[id].sector == sector
       case WaitSync(b) => b in s.blocks && (s.blocks[b].valid || s.blocks[b].locked)
       case Ref(b) => b in s.blocks && s.blocks[b].valid
       case Locked(b) => b in s.blocks && s.blocks[b].valid
       case Written(b) => b in s.blocks && s.blocks[b].valid
       case SyncLock(todo, waits, a) => ListsOk(s, todo, waits, a)
       case SyncSubmit(todo, waits, a) => todo != [] && ListsOk(s, todo, waits, a)
       case SyncWait(waits, _) => AllValid(s, waits) && Distinct(waits)
       case _ => true
  }

  ghost predicate Tasks(s: State)
  {
    forall t: nat :: TaskOk(s, t)
  }

  /** The client holding the lock has written the data and not yet marked the block dirty. */
  predicate BeingWritten(s: State, id: nat)
    requires id in s.blocks
  {
    s.blocks[id].owner.Some? && s.blocks[id].owner.value.Task? && PcOf(s, s.blocks[id].owner.value.t) == Written(id)
  }

  /** VALID and not DIRTY means the data is what is on the disk. */
  ghost predicate BlockOk(s: State, id: nat)
    requires Sized(s)
  {
    id in s.blocks ==>
      var b := s.blocks[id];
      && (b.dirty ==> b.valid)
      && (b.home.Some? ==> !b.valid && !b.locked && b.refs == 0)
      && (b.valid && !b.dirty && !BeingWritten(s, id) ==> b.data == s.disk[b.sector])
  }

  ghost predicate Coherent(s: State)
    requires Sized(s)
  {
    forall id: nat :: BlockOk(s, id)
  }

  ghost predicate Inv(s: State)
  {
    Sized(s) && Index(s) && Refs(s) && Locks(s) && DriveOk(s) && Tasks(s) && Coherent(s)
  }

  /** The index depends on the lists and on each block's sector and home, and on nothing else. */
  lemma IndexSame(s: State, s': State)
    requires Index(s) && s'.cfg == s.cfg && s'.lru == s.lru && s'.buckets == s.buckets && s'.cacheSize == s.cacheSize
    requires forall x: nat :: x in s'.blocks <==> x in s.blocks
    requires forall x: nat :: x in s.blocks ==>
               s'.blocks[x].sector == s.blocks[x].sector && s'.blocks[x].home == s.blocks[x].home
    ensures Index(s')
  {
    forall k: nat | k < HASH_SIZE ensures ChainOk(s', k) { assert ChainOk(s, k); }
    forall x: nat ensures CachedOk(s', x) { assert CachedOk(s, x); }
    forall i: nat, j: nat | i in s'.lru && j in s'.lru && SameSector(s', i, j) ensures i == j {
      assert SameSector(s, i, j);
    }
  }

  // ---------------------------------------------------------------- what the system stands for

  /** The contents of a sector: the cached data if it is VALID, else what is on the disk. */
  ghost function Logical(s: State, sector: nat): Data
    requires Index(s) && Sized(s)
  {
    var found := FindBlock(s, sector);
    FindExact(s, sector);
    if found.Some? && s.blocks[found.value].valid then s.blocks[found.value].data else s.disk[sector]
  }

  lemma {:induction false} FindInExact(blocks: map<nat, Block>, chain: seq<nat>, sector: nat)
    requires forall id :: id in chain ==> id in blocks
    ensures var f := FindIn(blocks, chain, sector);
            && (f.Some? ==> f.value in chain && blocks[f.value].sector == sector)
            && (f.None? ==> forall id :: id in chain ==> blocks[id].sector != sector)
  {
    if chain != [] {
      assert chain == [chain[0]] + chain[1..];
      FindInExact(blocks, chain[1..], sector);
    }
  }

  /** `__find_block` finds the cached block of a sector if and only if there is one. */
  lemma FindExact(s: State, sector: nat)
    requires Index(s)
    ensures var f := FindBlock(s, sector);
            && (f.Some? ==> f.value in s.lru && f.value in s.blocks && s.blocks[f.value].sector == sector)
            && (forall id :: id in s.lru ==> id in s.blocks && (s.blocks[id].sector == sector ==> f == Some(id)))
  {
    var h := BlockHash(s.cfg, sector);
    assert ChainOk(s, h);
    FindInExact(s.blocks, s.buckets[h], sector);
    var f := FindBlock(s, sector);
    forall id | id in s.lru
      ensures id in s.blocks && (s.blocks[id].sector == sector ==> f == Some(id))
    {
      assert CachedOk(s, id);
      if s.blocks[id].sector == sector && f.Some? { assert SameSector(s, id, f.value); }
    }
  }

  /** Where a sector's contents are: in a cached valid block, or on the disk. */
  predicate LivesIn(s: State, id: nat, sector: nat)
  {
    id in s.lru && id in s.blocks && s.blocks[id].sector == sector
  }

  /** Two states show the same contents of a sector when the same block caches it and its valid data
      is the same, or when none does and the disk is the same. */
  lemma SameLogical(s: State, s': State, sector: nat)
    requires Inv(s) && Inv(s')
    requires forall id: nat :: LivesIn(s, id, sector) ==>
               && LivesIn(s', id, sector)
               && (if s'.blocks[id].valid then s'.blocks[id].data else s'.disk[sector])
                  == (if s.blocks[id].valid then s.blocks[id].data else s.disk[sector])
    requires (forall id: nat :: !LivesIn(s, id, sector)) ==>
               && s'.disk[sector] == s.disk[sector]
               && (forall id: nat :: LivesIn(s', id, sector) ==> !s'.blocks[id].valid)
    ensures Logical(s', sector) == Logical(s, sector)
  {
    FindExact(s, sector);
    FindExact(s', sector);
    var f, f' := FindBlock(s, sector), FindBlock(s', sector);
    if f.Some? { assert LivesIn(s, f.value, sector); }
    if f'.Some? { assert LivesIn(s', f'.value, sector); }
  }
}
