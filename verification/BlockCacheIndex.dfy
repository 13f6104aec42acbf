/** Steps that change the cache's index: the LRU refresh, new blocks, insertion and eviction. */
module BlockCacheIndex {
  import opened Common
  import opened BlockCache
  import opened BlockCacheInv
  import opened BlockCacheLocal
  import opened BlockCacheClient

  function Refresh(s: State, id: nat): State
  {
    s.(lru := Without(s.lru, id) + [id])
  }

  /** Moving a cached block to the end of the LRU list changes nothing else. */
  lemma RefreshKeeps(s: State, id: nat)
    requires Inv(s) && id in s.lru
    ensures Inv(Refresh(s, id)) && Shows(s, Silent, Refresh(s, id))
  {
    var s' := Refresh(s, id);
    WithoutExact(s.lru, id);
    DistinctAppend(Without(s.lru, id), id);
    assert forall x :: x in s'.lru <==> x in s.lru;
    forall x: nat, u: nat ensures RefOk(s', x, u) && LockOk(s', x, u) { Facts(s, u, x); }
    forall x: nat ensures CountOk(s', x) && OwnerOk(s', x) && OnDriveOk(s', x) && CachedOk(s', x) && BlockOk(s', x) {
      Facts(s, 0, x);
    }
    forall k: nat | k < HASH_SIZE ensures ChainOk(s', k) { assert ChainOk(s, k); }
    forall i: nat, j: nat | i in s'.lru && j in s'.lru && SameSector(s', i, j) ensures i == j {
      assert SameSector(s, i, j);
    }
    forall u: nat ensures TaskOk(s', u) { assert TaskOk(s, u); }
    forall sector: nat ensures Logical(s', sector) == Logical(s, sector) {
      forall x: nat ensures LivesIn(s, x, sector) <==> LivesIn(s', x, sector) { }
      SameLogical(s, s', sector);
    }
  }

  /** A lookup that finds the block takes a reference to it. */
  lemma FoundKeeps(s: State, t: nat, id: nat)
    requires Inv(s) && PcOf(s, t).Find? && id in s.lru && id in s.blocks
    ensures Inv(SetPc(TakeRef(s, t, id), t, Got(id)))
    ensures Shows(s, Silent, SetPc(TakeRef(s, t, id), t, Got(id)))
  {
    RefreshKeeps(s, id);
    var s1 := Refresh(s, id);
    Facts(s1, t, id);
    LocalKeeps(s1, t, id, Ref1(s.blocks[id], Task(t)), Got(id));
    assert Local(s1, t, id, Ref1(s.blocks[id], Task(t)), Got(id)) == SetPc(TakeRef(s, t, id), t, Got(id));
  }

  /** Nobody holds a reference to, or the lock of, a block that is not cached. */
  lemma UnknownIdle(s: State, u: nat, id: nat)
    requires Inv(s) && id !in s.lru
    ensures Owed(PcOf(s, u), id) == 0 && !HasLock(PcOf(s, u), id) && !OnDrive(s, id)
  {
    Facts(s, u, id);
  }

  /** `s'` is `s` except for block `id`, which is not cached, and where task `t` is. */
  ghost predicate OffIndex(s: State, s': State, t: nat, id: nat)
  {
    && s' == s.(blocks := s'.blocks, pcs := s'.pcs)
    && id !in s.lru
    && (forall x: nat :: x != id ==> (x in s'.blocks <==> x in s.blocks))
    && (forall x: nat :: x != id && x in s.blocks ==> s'.blocks[x] == s.blocks[x])
    && (forall u: nat :: u != t ==> PcOf(s', u) == PcOf(s, u))
    && (PcOf(s, t).Insert? ==> PcOf(s, t).new_ == id)
    && (forall x: nat :: Owed(PcOf(s', t), x) == Owed(PcOf(s, t), x) == 0)
    && (forall x: nat :: !HasLock(PcOf(s', t), x) && !HasLock(PcOf(s, t), x))
    && (id in s'.blocks ==> s'.blocks[id] == NewBlock(s, t, s'.blocks[id].sector))
    && (id in s.blocks ==> s.blocks[id].home == Some(t))
  }

  lemma OffIndexParts(s: State, s': State, t: nat, id: nat)
    requires Inv(s) && OffIndex(s, s', t, id) && TaskOk(s', t)
    ensures Sized(s') && Index(s') && Tasks(s')
  {
    forall x: nat ensures CachedOk(s', x) { Facts(s, t, x); }
    forall k: nat | k < HASH_SIZE ensures ChainOk(s', k) { assert ChainOk(s, k); }
    forall i: nat, j: nat | i in s'.lru && j in s'.lru && SameSector(s', i, j) ensures i == j {
      assert SameSector(s, i, j);
    }
    OffIndexTasks(s, s', t, id);
  }

  lemma OffIndexTasks(s: State, s': State, t: nat, id: nat)
    requires Inv(s) && OffIndex(s, s', t, id) && TaskOk(s', t)
    ensures Tasks(s')
  {
    forall u: nat ensures TaskOk(s', u) { Facts(s, u, id); UnknownIdle(s, u, id); }
  }

  lemma OffIndexRefs(s: State, s': State, t: nat, id: nat)
    requires Inv(s) && OffIndex(s, s', t, id)
    ensures Refs(s') && Locks(s')
  {
    forall x: nat, u: nat ensures RefOk(s', x, u) && LockOk(s', x, u) { Facts(s, u, x); UnknownIdle(s, u, id); }
    forall x: nat ensures CountOk(s', x) && OwnerOk(s', x) { Facts(s, 0, x); UnknownIdle(s, 0, id); }
  }

  lemma OffIndexBlocks(s: State, s': State, t: nat, id: nat)
    requires Inv(s) && OffIndex(s, s', t, id) && Sized(s')
    ensures DriveOk(s') && Coherent(s')
  {
    forall x: nat ensures OnDriveOk(s', x) && BlockOk(s', x) {
      Facts(s, 0, x);
      UnknownIdle(s, 0, id);
      assert !HasLock(PcOf(s, t), x) && !HasLock(PcOf(s', t), x);
    }
    if s.current.Some? { Facts(s, 0, s.current.value); }
  }

  /** Making or discarding a block outside the cache is invisible. */
  lemma OffIndexKeeps(s: State, s': State, t: nat, id: nat)
    requires Inv(s) && OffIndex(s, s', t, id) && TaskOk(s', t)
    ensures Inv(s') && Shows(s, Silent, s')
  {
    OffIndexParts(s, s', t, id);
    OffIndexRefs(s, s', t, id);
    OffIndexBlocks(s, s', t, id);
    forall k: nat ensures Logical(s', k) == Logical(s, k) {
      forall x: nat ensures LivesIn(s, x, k) <==> LivesIn(s', x, k) { Facts(s, 0, x); }
      SameLogical(s, s', k);
    }
  }

  /** A task allocates a block, still outside the cache. */
  lemma AllocKeeps(s: State, t: nat, id: nat)
    requires Inv(s) && PcOf(s, t).Alloc? && id !in s.blocks
    ensures var sector := PcOf(s, t).sector;
            var s' := Local(s, t, id, NewBlock(s, t, sector), Insert(sector, id));
            Inv(s') && Shows(s, Silent, s')
  {
    var sector := PcOf(s, t).sector;
    Facts(s, t, id);
    OffIndexKeeps(s, Local(s, t, id, NewBlock(s, t, sector), Insert(sector, id)), t, id);
  }

  /** The loser of a race frees the block it made. */
  lemma DropKeeps(s: State, t: nat)
    requires Inv(s) && PcOf(s, t).Insert?
    ensures var s' := SetPc(s.(blocks := s.blocks - {PcOf(s, t).new_}), t, Find(PcOf(s, t).sector));
            Inv(s') && Shows(s, Silent, s')
  {
    var id := PcOf(s, t).new_;
    Facts(s, t, id);
    OffIndexKeeps(s, SetPc(s.(blocks := s.blocks - {id}), t, Find(PcOf(s, t).sector)), t, id);
  }

  // ---------------------------------------------------------------- insertion

  lemma CacheIndex(s: State, id: nat)
    requires Index(s) && id in s.blocks && id !in s.lru
    requires forall x: nat :: x in s.lru ==> !SameSector(s, x, id)
    ensures Index(Cache(s, id))
  {
    var s' := Cache(s, id);
    var h := BlockHash(s.cfg, s.blocks[id].sector);
    assert ChainOk(s, h) && id !in s.buckets[h];
    DistinctPrepend(s.buckets[h], id);
    DistinctAppend(s.lru, id);
    forall k: nat | k < HASH_SIZE ensures ChainOk(s', k) { assert ChainOk(s, k); }
    forall x: nat ensures CachedOk(s', x) { assert CachedOk(s, x); }
    forall i: nat, j: nat | i in s'.lru && j in s'.lru && SameSector(s', i, j) ensures i == j {
      assert SameSector(s, i, j) && SameSector(s, j, i);
    }
    assert |s'.lru| * s.cfg.blockSize == |s.lru| * s.cfg.blockSize + s.cfg.blockSize;
  }

  lemma CacheRest(s: State, t: nat, id: nat)
    requires Inv(s) && PcOf(s, t).Insert? && PcOf(s, t).new_ == id && id !in s.lru && id in s.blocks
    requires Index(Cache(s, id))
    ensures Inv(SetPc(Cache(s, id), t, Find(PcOf(s, t).sector)))
  {
    var s' := SetPc(Cache(s, id), t, Find(PcOf(s, t).sector));
    forall k: nat | k < HASH_SIZE ensures ChainOk(s', k) { assert ChainOk(Cache(s, id), k); }
    forall i: nat, j: nat | i in s'.lru && j in s'.lru && SameSector(s', i, j) ensures i == j {
      assert SameSector(Cache(s, id), i, j);
    }
    forall x: nat, u: nat ensures RefOk(s', x, u) && LockOk(s', x, u) { Facts(s, u, x); }
    forall x: nat ensures CountOk(s', x) && OwnerOk(s', x) && OnDriveOk(s', x) && BlockOk(s', x) && CachedOk(s', x) {
      Facts(s, 0, x);
      assert CachedOk(Cache(s, id), x);
    }
    CacheTasks(s, t, id);
  }

  lemma CacheTasks(s: State, t: nat, id: nat)
    requires Inv(s) && PcOf(s, t).Insert? && PcOf(s, t).new_ == id && id in s.blocks && |s.buckets| == HASH_SIZE
    ensures Tasks(SetPc(Cache(s, id), t, Find(PcOf(s, t).sector)))
  {
    var s' := SetPc(Cache(s, id), t, Find(PcOf(s, t).sector));
    Facts(s, t, id);
    forall u: nat ensures TaskOk(s', u) { assert TaskOk(s, u); }
  }

  /** The winner inserts its block: the sector had none, and an invalid block shows the disk. */
  lemma CacheKeeps(s: State, t: nat)
    requires Inv(s) && PcOf(s, t).Insert? && FindBlock(s, PcOf(s, t).sector).None?
    ensures PcOf(s, t).new_ in s.blocks
    ensures var s' := SetPc(Cache(s, PcOf(s, t).new_), t, Find(PcOf(s, t).sector));
            Inv(s') && Shows(s, Silent, s')
  {
    var sector, id := PcOf(s, t).sector, PcOf(s, t).new_;
    Facts(s, t, id);
    var s' := SetPc(Cache(s, id), t, Find(sector));
    FindExact(s, sector);
    CacheIndex(s, id);
    CacheRest(s, t, id);
    forall k: nat ensures Logical(s', k) == Logical(s, k) {
      forall x: nat ensures LivesIn(s', x, k) <==> LivesIn(s, x, k) || (x == id && k == sector) { }
      SameLogical(s, s', k);
    }
  }

  // ---------------------------------------------------------------- eviction

  lemma UncacheIndex(s: State, id: nat)
    requires Index(s) && id in s.blocks && id in s.lru
    ensures Index(Uncache(s, id))
  {
    var s' := Uncache(s, id);
    var h := BlockHash(s.cfg, s.blocks[id].sector);
    assert ChainOk(s, h) && CachedOk(s, id);
    WithoutExact(s.buckets[h], id);
    WithoutExact(s.lru, id);
    forall k: nat | k < HASH_SIZE ensures ChainOk(s', k) { assert ChainOk(s, k); }
    forall x: nat ensures CachedOk(s', x) { assert CachedOk(s, x); }
    forall i: nat, j: nat | i in s'.lru && j in s'.lru && SameSector(s', i, j) ensures i == j {
      assert SameSector(s, i, j);
    }
    assert |s'.lru| * s.cfg.blockSize == |s.lru| * s.cfg.blockSize - s.cfg.blockSize;
  }

  /** No task and no request refers to a block without references. */
  lemma Unreferenced(s: State, id: nat, t: nat)
    requires Inv(s) && id in s.blocks && s.blocks[id].refs == 0
    ensures Owed(PcOf(s, t), id) == 0 && !HasLock(PcOf(s, t), id) && !OnDrive(s, id)
  {
    Facts(s, t, id);
    assert s.blocks[id].holders == multiset{};
  }

  lemma UncacheRefs(s: State, id: nat)
    requires Inv(s) && id in s.lru && id in s.blocks && Evictable(s.blocks[id])
    ensures Refs(Uncache(s, id)) && Locks(Uncache(s, id)) && Tasks(Uncache(s, id))
  {
    var s' := Uncache(s, id);
    WithoutExact(s.lru, id);
    forall x: nat, u: nat ensures RefOk(s', x, u) && LockOk(s', x, u) { Facts(s, u, x); Unreferenced(s, id, u); }
    forall x: nat ensures CountOk(s', x) && OwnerOk(s', x) { Facts(s, 0, x); }
    Facts(s, 0, id);
    forall u: nat ensures TaskOk(s', u) { Facts(s, u, id); Unreferenced(s, id, u); InLists(s, u, id); }
  }

  lemma InLists(s: State, u: nat, id: nat)
    requires Owed(PcOf(s, u), id) == 0
    ensures PcOf(s, u).SyncLock? || PcOf(s, u).SyncSubmit? ==> id !in PcOf(s, u).todo
    ensures PcOf(s, u).SyncLock? || PcOf(s, u).SyncSubmit? || PcOf(s, u).SyncWait? ==> id !in PcOf(s, u).waits
  {
  }

  /** Evicting a block that nobody refers to, and that is not dirty, is invisible: if it was valid its
      data is on the disk. */
  lemma UncacheKeeps(s: State, id: nat)
    requires Inv(s) && id in s.lru && id in s.blocks && Evictable(s.blocks[id])
    ensures Inv(Uncache(s, id)) && Shows(s, Silent, Uncache(s, id))
  {
    var s' := Uncache(s, id);
    UncacheIndex(s, id);
    UncacheRefs(s, id);
    Unreferenced(s, id, 0);
    WithoutExact(s.lru, id);
    forall x: nat ensures OnDriveOk(s', x) && BlockOk(s', x) { Facts(s, 0, x); }
    UncacheLogical(s, id);
  }

  lemma UncacheLogical(s: State, id: nat)
    requires Inv(s) && id in s.lru && id in s.blocks && Evictable(s.blocks[id]) && Inv(Uncache(s, id))
    ensures Shows(s, Silent, Uncache(s, id))
  {
    var s' := Uncache(s, id);
    Facts(s, 0, id);
    WithoutExact(s.lru, id);
    forall k: nat ensures Logical(s', k) == Logical(s, k) {
      FindExact(s, k);
      FindExact(s', k);
    }
  }

  /** A shrink pass is invisible, and removes no block that is referenced, dirty or locked. */
  lemma {:induction false} ShrinkKeeps(s: State, todo: seq<nat>, freed: nat)
    requires Inv(s) && (forall id :: id in todo ==> id in s.lru) && Distinct(todo)
    ensures var s' := ShrinkPass(s, todo, freed).0;
            && Inv(s') && Shows(s, Silent, s')
            && s'.pcs == s.pcs && s'.syncMutex == s.syncMutex && s'.cfg == s.cfg
            && (forall id :: id in s.blocks && !Evictable(s.blocks[id]) ==>
                  id in s'.blocks && s'.blocks[id] == s.blocks[id])
    decreases |todo|
  {
    if todo == [] || freed >= s.cfg.shrinkSize {
    } else {
      var id := todo[0];
      DistinctTail(todo);
      if id in s.blocks && Evictable(s.blocks[id]) {
        UncacheKeeps(s, id);
        WithoutExact(s.lru, id);
        ShrinkKeeps(Uncache(s, id), todo[1..], freed + s.cfg.blockSize);
      } else {
        ShrinkKeeps(s, todo[1..], freed);
      }
    }
  }
}
