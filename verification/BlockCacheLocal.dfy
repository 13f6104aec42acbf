/** Steps of the block cache that change one block and move one task. */
module BlockCacheLocal {
  import opened Common
  import opened BlockCache
  import opened BlockCacheInv

  /** A change that task `t` may make to block `id` while moving to `pc`: references and lock change
      hands only between `t` and nobody, and what other tasks rely on stays. */
  ghost predicate LocalOk(s: State, t: nat, id: nat, b': Block)
    requires id in s.blocks
  {
    var b := s.blocks[id];
    && b'.sector == b.sector && b'.home == b.home && |b'.data| == s.cfg.n && (b.valid ==> b'.valid)
    && (b'.dirty ==> b'.valid) && (b.home.Some? ==> b' == b)
    && b'.refs == |b'.holders| && b'.holders[Drive] == b.holders[Drive]
    && (forall u: nat :: u != t ==> b'.holders[Task(u)] == b.holders[Task(u)])
    && (b'.locked <==> b'.owner.Some?)
    && (b'.owner != b.owner ==> b.owner in {None, Some(Task(t))} && b'.owner in {None, Some(Task(t))})
    && (b.owner == Some(Drive) ==> b'.data == b.data && b'.dirty == b.dirty)
    && (b.locked ==> b'.locked || b'.valid)
    && (b'.data != b.data || b'.dirty != b.dirty || b'.valid != b.valid ==> b.owner == Some(Task(t)))
  }

  /** The task's own bookkeeping follows the change. */
  ghost predicate MoveOk(s: State, t: nat, id: nat, b': Block, pc: Pc)
    requires Sized(s) && id in s.blocks
  {
    var was := PcOf(s, t);
    && (forall x: nat :: Owed(pc, x) == if x == id then b'.holders[Task(t)] else Owed(was, x))
    && (Owed(pc, id) > 0 ==> id in s.lru)
    && (forall x: nat :: HasLock(pc, x) <==> if x == id then b'.owner == Some(Task(t)) else HasLock(was, x))
    && (InSync(pc) <==> InSync(was))
    && (was.Written? && was.b != id ==> pc == was)
    && (was == Written(id) || b'.data != s.blocks[id].data || s.blocks[id].dirty || b'.valid != s.blocks[id].valid ==>
          pc == Written(id) || b'.dirty || !b'.valid || b'.data == s.disk[b'.sector])
  }

  lemma LocalRefs(s: State, t: nat, id: nat, b': Block, pc: Pc)
    requires Sized(s) && id in s.blocks && Refs(s) && LocalOk(s, t, id, b') && MoveOk(s, t, id, b', pc)
    ensures Refs(Local(s, t, id, b', pc))
  {
    var s' := Local(s, t, id, b', pc);
    forall x: nat, u: nat ensures RefOk(s', x, u) { assert RefOk(s, x, u); }
    forall x: nat ensures CountOk(s', x) { assert CountOk(s, x); }
  }

  lemma LocalLocks(s: State, t: nat, id: nat, b': Block, pc: Pc)
    requires Sized(s) && id in s.blocks && Locks(s) && LocalOk(s, t, id, b') && MoveOk(s, t, id, b', pc)
    ensures Locks(Local(s, t, id, b', pc))
  {
    var s' := Local(s, t, id, b', pc);
    forall x: nat, u: nat ensures LockOk(s', x, u) { assert LockOk(s, x, u); }
    forall x: nat ensures OwnerOk(s', x) { assert OwnerOk(s, x); }
  }

  lemma LocalIndex(s: State, t: nat, id: nat, b': Block, pc: Pc)
    requires id in s.blocks && Index(s) && LocalOk(s, t, id, b')
    ensures Index(Local(s, t, id, b', pc))
  {
    var s' := Local(s, t, id, b', pc);
    IndexSame(s, s');
  }

  lemma LocalDrive(s: State, t: nat, id: nat, b': Block, pc: Pc)
    requires Sized(s) && id in s.blocks && DriveOk(s) && OwnerOk(s, id) && LocalOk(s, t, id, b')
    ensures Sized(Local(s, t, id, b', pc)) && DriveOk(Local(s, t, id, b', pc))
  {
    var s' := Local(s, t, id, b', pc);
    forall x: nat ensures OnDriveOk(s', x) { assert OnDriveOk(s, x); }
  }

  lemma LocalTasks(s: State, t: nat, id: nat, b': Block, pc: Pc)
    requires Sized(s) && id in s.blocks && Tasks(s) && OwnerOk(s, id) && LocalOk(s, t, id, b')
    requires TaskOk(Local(s, t, id, b', pc), t)
    ensures Tasks(Local(s, t, id, b', pc))
  {
    var s' := Local(s, t, id, b', pc);
    forall u: nat ensures TaskOk(s', u) { assert TaskOk(s, u); }
  }

  lemma LocalCoherent(s: State, t: nat, id: nat, b': Block, pc: Pc)
    requires Sized(s) && id in s.blocks && Coherent(s) && Locks(s) && LocalOk(s, t, id, b') && MoveOk(s, t, id, b', pc)
    requires Sized(Local(s, t, id, b', pc))
    ensures Coherent(Local(s, t, id, b', pc))
  {
    var s' := Local(s, t, id, b', pc);
    forall x: nat ensures BlockOk(s', x) {
      assert BlockOk(s, x) && LockOk(s, x, t);
    }
  }

  /** A local change keeps the invariant, and changes the contents of no other sector. */
  lemma LocalKeeps(s: State, t: nat, id: nat, b': Block, pc: Pc)
    requires Inv(s) && id in s.blocks && LocalOk(s, t, id, b') && MoveOk(s, t, id, b', pc)
    requires TaskOk(Local(s, t, id, b', pc), t)
    ensures Inv(Local(s, t, id, b', pc))
    ensures forall sector: nat ::
              sector != b'.sector || (b'.data == s.blocks[id].data && b'.valid == s.blocks[id].valid) ==>
              Logical(Local(s, t, id, b', pc), sector) == Logical(s, sector)
  {
    LocalRefs(s, t, id, b', pc);
    LocalLocks(s, t, id, b', pc);
    LocalIndex(s, t, id, b', pc);
    assert OwnerOk(s, id);
    LocalDrive(s, t, id, b', pc);
    LocalTasks(s, t, id, b', pc);
    LocalCoherent(s, t, id, b', pc);
    var s' := Local(s, t, id, b', pc);
    forall sector: nat | sector != b'.sector || (b'.data == s.blocks[id].data && b'.valid == s.blocks[id].valid)
      ensures Logical(s', sector) == Logical(s, sector)
    {
      forall x: nat ensures LivesIn(s, x, sector) <==> LivesIn(s', x, sector) { }
      SameLogical(s, s', sector);
    }
  }
}
